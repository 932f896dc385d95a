/**
 * The session engine as the program runs it: the process-wide `$state`
 * whose fields the commands reassign, and chat objects whose message
 * lists grow in place. Each method is proved to have the effect the
 * `Session` functions describe.
 */
module Engine {
  import opened Options
  import opened Messages
  import opened Metrics
  import opened Prompts
  import opened Commands
  import opened Persistence
  import opened Configuration
  import opened Session

  /** A conversation object: the transcript it owns and the model it talks to. */
  class Chat {
    var messages: seq<Message>
    var model: string
    var provider: string
    /** Whether the end-of-message hook installed at creation saves the chat. */
    const persist: bool

    function View(): ChatView
      reads this
    {
      ChatView(messages, model, provider, persist)
    }

    /** A new chat; `with_instructions` adds the system message when there are instructions. */
    constructor (model: string, provider: string, instructions: Option<string>, persist: bool)
      ensures View() == ChatView(Seed(instructions), model, provider, persist)
    {
      this.model, this.provider, this.persist := model, provider, persist;
      messages := [];
      new;
      if instructions.Some? {
        AddMessage(Message(System, instructions.value, [], NoUsage));
      }
    }

    /** `add_message`: appends, never reorders or alters earlier messages. */
    method AddMessage(m: Message)
      modifies this`messages
      ensures messages == old(messages) + [m]
    {
      messages := messages + [m];
    }

    /** `with_model`: the transcript is kept. */
    method WithModel(model: string, provider: string)
      modifies this`model, this`provider
      ensures this.model == model && this.provider == provider
    {
      this.model, this.provider := model, provider;
    }
  }

  class State {
    var model: string
    var provider: string
    var instructions: Option<string>
    var chat: Chat
    var currentChatId: string
    var session: Counters
    var persistChat: bool
    /** The files of `.detritus/chats`, by chat id. */
    var chatFiles: ChatFiles

    function View(): Session.View
      reads this, chat
    {
      Session.View(model, provider, instructions, chat.View(), currentChatId, session, persistChat, chatFiles)
    }

    /**
     * `configure`: model, provider, instructions and chat id as given (the
     * environment and clock read by the program), zeroed counters and a
     * fresh chat.
     */
    constructor Configure(model: string, provider: string, instructions: Option<string>, chatId: string,
                          noPersistSet: bool, chatFiles: ChatFiles)
      ensures View() == Configured(model, provider, instructions, chatId, PersistFlag(noPersistSet), chatFiles)
      ensures fresh(chat)
    {
      this.model, this.provider, this.instructions := model, provider, instructions;
      persistChat := PersistFlag(noPersistSet);
      this.chatFiles := chatFiles;
      currentChatId := chatId;
      session := Zero;
      chat := new Chat(model, provider, instructions, PersistFlag(noPersistSet));
    }

    /** `track_metrics`. */
    method TrackMetrics(msg: Option<Message>, pricing: Option<Pricing>)
      requires PricingOk(pricing)
      modifies this`session
      ensures session == Track(old(session), msg, pricing)
    {
      if msg.None? {
        return;
      }
      var m := msg.value;
      session := session.(
        tokensIn := session.tokensIn + m.usage.input,
        tokensOut := session.tokensOut + m.usage.output,
        tokensCached := session.tokensCached + m.usage.cached,
        messages := session.messages + 1);
      if m.IsToolCall() {
        session := session.(toolCalls := session.toolCalls + 1);
      }
      session := session.(cost := session.cost + EstimateCost(pricing, m.usage.input, m.usage.output));
    }

    /** `reset_session`: every counter zero, whatever they were. */
    method ResetSession()
      modifies this`session
      ensures session == Zero
    {
      session := Zero;
    }

    /** `create_chat` on the current model and provider. */
    method CreateChat(instructions: Option<string>, persist: bool) returns (c: Chat)
      ensures fresh(c) && c.View() == NewChat(View(), instructions, persist)
    {
      c := new Chat(model, provider, instructions, persist);
    }

    /** `save_chat`: the live chat's messages under the current chat id. */
    method SaveChat()
      modifies this`chatFiles
      ensures View() == Save(old(View()))
    {
      chatFiles := chatFiles[currentChatId := Dumped(Record(currentChatId, model, provider, chat.messages))];
    }

    /**
     * `load_chat`: nil when the file is missing or does not load; otherwise
     * a chat created without instructions and without persistence into
     * which every stored message is replayed, in order.
     */
    method LoadChat(id: string) returns (c: Chat?)
      ensures c == null <==> StoredMessages(chatFiles, id).None?
      ensures c != null ==> fresh(c) && c.View() == ChatView(StoredMessages(chatFiles, id).value, model, provider, false)
    {
      if id !in chatFiles || chatFiles[id].Garbled? {
        return null;
      }
      var stored := chatFiles[id].record.messages;
      c := CreateChat(None, false);
      var i := 0;
      while i < |stored|
        invariant 0 <= i <= |stored|
        invariant c.View() == ChatView(stored[..i], model, provider, false)
      {
        c.AddMessage(stored[i]);
        assert stored[..i + 1] == stored[..i] + [stored[i]];
        i := i + 1;
      }
      assert stored[..|stored|] == stored;
    }

    /** The chat's end-of-message hook for a reply that was just appended. */
    method EndMessage(m: Message, prices: map<string, Pricing>)
      requires PricesOk(prices)
      modifies this, chat
      ensures chat == old(chat)
      ensures View() == Session.EndMessage(old(View()), m, prices)
    {
      chat.AddMessage(m);
      TrackMetrics(Some(m), PricingOf(prices, model));
      if chat.persist {
        SaveChat();
      }
    }

    /** `chat.ask(text)` with the service's replies. */
    method AskChat(text: string, replies: seq<Message>, prices: map<string, Pricing>)
      requires PricesOk(prices)
      modifies this, chat
      ensures chat == old(chat)
      ensures View() == Converse(old(View()), text, replies, prices)
    {
      chat.AddMessage(UserMessage(text));
      ghost var start := View();
      var i := 0;
      while i < |replies|
        invariant 0 <= i <= |replies|
        invariant chat == old(chat)
        invariant View() == EndMessages(start, replies[..i], prices)
      {
        ghost var before := View();
        EndMessage(replies[i], prices);
        EndMessagesStep(start, replies, i, prices);
        assert View() == Session.EndMessage(before, replies[i], prices);
        i := i + 1;
      }
      assert replies[..|replies|] == replies;
    }

    /** `handle_prompt(line)`, with `depth` nested prompt loads left before the stack runs out. */
    method HandlePrompt(line: string, depth: nat, env: Environment) returns (outcome: Outcome)
      requires EnvironmentOk(env)
      modifies this, chat
      ensures (View(), outcome) == Dispatch(old(View()), line, depth, env)
      ensures chat != old(chat) ==> fresh(chat)
      decreases depth
    {
      outcome := Continue;
      match Classify(line)
      case Exit =>
        outcome := Exited;
      case New =>
        ResetSession();
        chat := CreateChat(instructions, persistChat);
      case Load(name, args) =>
        var built := BuildPrompt(env.prompts, name, args);
        if built.Some? {
          if depth == 0 {
            outcome := StackExhausted;
          } else {
            outcome := HandlePrompt(built.value, depth - 1, env);
          }
        }
      case Resume(id) =>
        var loaded := LoadChat(id);
        if loaded != null {
          chat := loaded;
        }
      case ListResume =>
        outcome := Listed(chatFiles.Keys);
      case Status =>
      case Bang(cmd) =>
        chat.AddMessage(ShellMessage(cmd, env.shellOutput));
      case Model(word) =>
        model := word;
        chat.WithModel(model, provider);
      case Named(name, args) =>
        var built := BuildPrompt(env.prompts, name, args);
        if built.Some? {
          AskChat(built.value, env.replies, env.prices);
        }
      case Ask(text) =>
        AskChat(text, env.replies, env.prices);
    }
  }
}
