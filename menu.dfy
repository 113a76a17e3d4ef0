/**
 * The reply keyboard and the dispatch of `menu_handler`, the same in bot.py
 * and bot-ssh.py.
 */
module Menu {

  /** The three buttons of `MENU_BUTTONS`. */
  const StatusButton: string := "📊 Статус WireGuard"
  const ClientsButton: string := "👥 Список клиентов"
  const DeleteButton: string := "🗑 Удалить клиента"

  /** What a message outside delete mode asks for. */
  datatype Choice = ShowStatus | ShowClients | StartDelete | Unknown

  /** The `if`/`elif` chain on the message text: only the exact button texts are recognised. */
  function Choose(text: string): (choice: Choice)
    ensures choice == StartDelete <==> text == DeleteButton
    ensures choice == Unknown <==> text != StatusButton && text != ClientsButton && text != DeleteButton
  {
    if text == StatusButton then ShowStatus
    else if text == ClientsButton then ShowClients
    else if text == DeleteButton then StartDelete
    else Unknown
  }

  /** `str(update.effective_chat.id) != str(self.chat_id)` fails: both ids compared as text. */
  predicate Authorized(chat: string, chatId: string): (ok: bool)
    ensures ok <==> |chat| == |chatId| && forall k :: 0 <= k < |chat| ==> chat[k] == chatId[k]
  {
    chat == chatId
  }
}
