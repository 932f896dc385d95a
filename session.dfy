/**
 * The session engine as a function of its state: what `handle_prompt`
 * does to the model, the live chat, the counters and the chat store for
 * one input line, given what the outside world answers (prompt files,
 * the price registry, the shell's output and the model's replies).
 */
module Session {
  import opened Options
  import opened Messages
  import opened Metrics
  import opened Substitution
  import opened Prompts
  import opened Commands
  import opened Persistence
  import opened Configuration

  /** A chat: its messages, the model and provider it talks to, and whether its end-of-message hook saves. */
  datatype ChatView = ChatView(messages: seq<Message>, model: string, provider: string, persist: bool)

  /** `$state` together with the chat store. */
  datatype View = View(
    model: string, provider: string, instructions: Option<string>,
    chat: ChatView, chatId: string, counters: Counters, persist: bool,
    chatFiles: ChatFiles)

  /** What the outside world supplies while one line is handled. */
  datatype Environment = Environment(
    prompts: PromptFiles,           // local and global prompt files
    prices: map<string, Pricing>,   // the model registry's prices
    shellOutput: string,            // what the shell prints for a `!` command
    replies: seq<Message>)          // assistant and tool messages of a model turn

  /** Every price in the registry is non-negative. */
  predicate PricesOk(prices: map<string, Pricing>) {
    forall m :: m in prices ==> prices[m].inputPerMillion >= 0.0 && prices[m].outputPerMillion >= 0.0
  }

  /** Prices are non-negative and the service never answers with a system message. */
  predicate EnvironmentOk(env: Environment) {
    PricesOk(env.prices) &&
    (forall i :: 0 <= i < |env.replies| ==> env.replies[i].role != System)
  }

  function PricingOf(prices: map<string, Pricing>, model: string): (p: Option<Pricing>)
    requires PricesOk(prices)
    ensures PricingOk(p)
  {
    if model in prices then Some(prices[model]) else None
  }

  datatype Outcome = Continue | Exited | Listed(ids: set<string>) | StackExhausted

  /** `create_chat`: a chat on the current model and provider, seeded with the instructions. */
  function NewChat(v: View, instructions: Option<string>, persist: bool): (c: ChatView)
    ensures SystemCount(c.messages) <= 1 && c.model == v.model && c.provider == v.provider
  {
    ChatView(Seed(instructions), v.model, v.provider, persist)
  }

  /** `save_chat`: the live chat's messages, under the current chat id. */
  function Save(v: View): View {
    v.(chatFiles := Store(v.chatFiles, Record(v.chatId, v.model, v.provider, v.chat.messages)))
  }

  /** The `!` escape's message: the command, a blank line, the output. */
  function ShellMessage(cmd: string, output: string): (m: Message)
    ensures m.role == User && m.content == cmd + "\n\n" + output && !m.IsToolCall()
  {
    UserMessage(cmd + "\n\n" + output)
  }

  /** The end-of-message hook after a reply is appended: track the metrics, then save if the chat persists. */
  function EndMessage(v: View, m: Message, prices: map<string, Pricing>): View
    requires PricesOk(prices)
  {
    var appended := v.(chat := v.chat.(messages := v.chat.messages + [m]),
                       counters := Track(v.counters, Some(m), PricingOf(prices, v.model)));
    if v.chat.persist then Save(appended) else appended
  }

  function EndMessages(v: View, ms: seq<Message>, prices: map<string, Pricing>): View
    requires PricesOk(prices)
  {
    if ms == [] then v else EndMessage(EndMessages(v, ms[..|ms| - 1], prices), ms[|ms| - 1], prices)
  }

  /** One more reply runs one more hook. */
  lemma EndMessagesStep(v: View, ms: seq<Message>, i: nat, prices: map<string, Pricing>)
    requires PricesOk(prices) && i < |ms|
    ensures EndMessages(v, ms[..i + 1], prices) == EndMessage(EndMessages(v, ms[..i], prices), ms[i], prices)
  {
    assert ms[..i + 1][..i] == ms[..i];
  }

  /** `chat.ask(text)`: the user message, then each reply with its hook. */
  function Converse(v: View, text: string, replies: seq<Message>, prices: map<string, Pricing>): View
    requires PricesOk(prices)
  {
    EndMessages(v.(chat := v.chat.(messages := v.chat.messages + [UserMessage(text)])), replies, prices)
  }

  /**
   * `handle_prompt(line)`. `depth` is how many more nested dispatches of a
   * loaded prompt the interpreter's stack allows.
   */
  function Dispatch(v: View, line: string, depth: nat, env: Environment): (View, Outcome)
    requires EnvironmentOk(env)
    decreases depth
  {
    match Classify(line)
    case Exit => (v, Exited)
    case New => (v.(counters := Zero, chat := NewChat(v, v.instructions, v.persist)), Continue)
    case Load(name, args) =>
      (match BuildPrompt(env.prompts, name, args)
       case None => (v, Continue)
       case Some(text) => if depth == 0 then (v, StackExhausted) else Dispatch(v, text, depth - 1, env))
    case Resume(id) =>
      (match StoredMessages(v.chatFiles, id)
       case None => (v, Continue)
       case Some(ms) => (v.(chat := ChatView(ms, v.model, v.provider, false)), Continue))
    case ListResume => (v, Listed(v.chatFiles.Keys))
    case Status => (v, Continue)
    case Bang(cmd) => (v.(chat := v.chat.(messages := v.chat.messages + [ShellMessage(cmd, env.shellOutput)])), Continue)
    case Model(word) => (v.(model := word, chat := v.chat.(model := word, provider := v.provider)), Continue)
    case Named(name, args) =>
      (match BuildPrompt(env.prompts, name, args)
       case None => (v, Continue)
       case Some(text) => (Converse(v, text, env.replies, env.prices), Continue))
    case Ask(text) => (Converse(v, text, env.replies, env.prices), Continue)
  }

  // ---------------------------------------------------------------------
  // A model turn

  /**
   * A turn appends the user message and then the replies, in order;
   * the counters advance once per reply; the store holds the final
   * transcript when the chat persists and anything was replied, and is
   * untouched otherwise.
   */
  lemma {:induction false} ConverseEffect(v: View, text: string, replies: seq<Message>, prices: map<string, Pricing>)
    requires PricesOk(prices)
    ensures var r := Converse(v, text, replies, prices);
      r.chat == v.chat.(messages := v.chat.messages + [UserMessage(text)] + replies) &&
      r.counters == TrackAll(v.counters, replies, PricingOf(prices, v.model)) &&
      r.model == v.model && r.provider == v.provider && r.instructions == v.instructions &&
      r.chatId == v.chatId && r.persist == v.persist &&
      r.chatFiles == (if v.chat.persist && replies != []
                      then Store(v.chatFiles, Record(v.chatId, v.model, v.provider, r.chat.messages))
                      else v.chatFiles)
  {
    var start := v.(chat := v.chat.(messages := v.chat.messages + [UserMessage(text)]));
    EndMessagesEffect(start, replies, prices);
  }

  /** One hook: the reply is appended, counted, and saved when the chat persists. */
  lemma EndMessageEffect(v: View, m: Message, prices: map<string, Pricing>)
    requires PricesOk(prices)
    ensures var r := EndMessage(v, m, prices);
      r.chat == v.chat.(messages := v.chat.messages + [m]) &&
      r.counters == Track(v.counters, Some(m), PricingOf(prices, v.model)) &&
      r.model == v.model && r.provider == v.provider && r.instructions == v.instructions &&
      r.chatId == v.chatId && r.persist == v.persist &&
      r.chatFiles == (if v.chat.persist
                      then Store(v.chatFiles, Record(v.chatId, v.model, v.provider, r.chat.messages))
                      else v.chatFiles)
  {
  }

  lemma {:induction false} EndMessagesEffect(v: View, ms: seq<Message>, prices: map<string, Pricing>)
    requires PricesOk(prices)
    ensures var r := EndMessages(v, ms, prices);
      r.chat == v.chat.(messages := v.chat.messages + ms) &&
      r.counters == TrackAll(v.counters, ms, PricingOf(prices, v.model)) &&
      r.model == v.model && r.provider == v.provider && r.instructions == v.instructions &&
      r.chatId == v.chatId && r.persist == v.persist &&
      r.chatFiles == (if v.chat.persist && ms != []
                      then Store(v.chatFiles, Record(v.chatId, v.model, v.provider, r.chat.messages))
                      else v.chatFiles)
    decreases |ms|
  {
    if ms == [] {
      assert v.chat.messages + ms == v.chat.messages;
    } else {
      var init, last := ms[..|ms| - 1], ms[|ms| - 1];
      var w := EndMessages(v, init, prices);
      EndMessagesEffect(v, init, prices);
      EndMessageEffect(w, last, prices);
      assert v.chat.messages + init + [last] == v.chat.messages + ms;
      var rec := Record(v.chatId, v.model, v.provider, v.chat.messages + ms);
      if v.chat.persist && init != [] {
        StoreOverwrites(v.chatFiles, Record(v.chatId, v.model, v.provider, w.chat.messages), rec);
      }
    }
  }

  /**
   * Over a turn the counters grow by the summed usage of the replies,
   * one message per reply; the user's own message is not counted.
   */
  lemma TurnCountsEveryReply(v: View, text: string, replies: seq<Message>, prices: map<string, Pricing>)
    requires PricesOk(prices)
    ensures var c := Converse(v, text, replies, prices).counters;
      c.tokensIn == v.counters.tokensIn + SumIn(replies) &&
      c.tokensOut == v.counters.tokensOut + SumOut(replies) &&
      c.tokensCached == v.counters.tokensCached + SumCached(replies) &&
      c.toolCalls == v.counters.toolCalls + CountToolCalls(replies) &&
      c.messages == v.counters.messages + |replies| &&
      c.cost == v.counters.cost + SumCost(replies, PricingOf(prices, v.model))
  {
    ConverseEffect(v, text, replies, prices);
    TrackAllIsSum(v.counters, replies, PricingOf(prices, v.model));
  }

  // ---------------------------------------------------------------------
  // Properties of dispatch

  /** `/exit` and `/quit` end the process and change nothing. */
  lemma ExitChangesNothing(v: View, depth: nat, env: Environment)
    requires EnvironmentOk(env)
    ensures Dispatch(v, "/exit", depth, env) == (v, Exited)
    ensures Dispatch(v, "/quit", depth, env) == (v, Exited)
  {
  }

  /**
   * `/new` and `/clear` zero every counter and start a chat holding only
   * the instructions, whatever the prior state.
   */
  lemma NewResets(v: View, line: string, depth: nat, env: Environment)
    requires EnvironmentOk(env) && (line == "/new" || line == "/clear")
    ensures var (r, o) := Dispatch(v, line, depth, env);
      o == Continue && r.counters == Zero && r.chat.messages == Seed(v.instructions) &&
      SystemCount(r.chat.messages) <= 1 &&
      r == v.(counters := Zero, chat := ChatView(Seed(v.instructions), v.model, v.provider, v.persist))
  {
  }

  /**
   * `!<cmd>` on one line appends exactly one user message, the command and
   * its output, and changes nothing else.
   */
  lemma {:induction false} ShellEscapeAppendsOne(v: View, cmd: string, depth: nat, env: Environment)
    requires EnvironmentOk(env) && |cmd| > 0 && NoNewline(cmd)
    ensures Dispatch(v, "!" + cmd, depth, env) ==
      (v.(chat := v.chat.(messages := v.chat.messages + [ShellMessage(cmd, env.shellOutput)])), Continue)
  {
    BangLine(cmd);
  }

  /**
   * `/model <word><rest>` sets the model, of the state and of the chat, to
   * the word alone; the provider and the transcript stay as they were.
   */
  lemma {:induction false} ModelSwitchKeepsProviderAndTranscript(v: View, word: string, rest: string, depth: nat, env: Environment)
    requires EnvironmentOk(env)
    requires IsWordText(word) && NoNewline(word) && NoNewline(rest) && (rest == [] || !IsWord(rest[0]))
    ensures var (r, o) := Dispatch(v, "/model " + word + rest, depth, env);
      o == Continue && r.model == word && r.chat.model == word && r.provider == v.provider &&
      r.chat.messages == v.chat.messages && r.counters == v.counters && r.chatFiles == v.chatFiles
  {
    ModelLine(word, rest);
  }

  /** `/resume <id>` with no loadable record keeps the live chat and everything else. */
  lemma {:induction false} ResumeMissingKeepsChat(v: View, id: string, depth: nat, env: Environment)
    requires EnvironmentOk(env) && IsWordText(id) && StoredMessages(v.chatFiles, id).None?
    ensures Dispatch(v, "/resume " + id, depth, env) == (v, Continue)
  {
    ResumeLine(id);
  }

  /**
   * Saving and then `/resume` of the current id gives a chat with the
   * saved messages (same order and count, no extra system message) that
   * no longer persists; the current chat id is not changed.
   */
  lemma {:induction false} SaveThenResume(v: View, depth: nat, env: Environment)
    requires EnvironmentOk(env) && IsWordText(v.chatId)
    ensures var (r, o) := Dispatch(Save(v), "/resume " + v.chatId, depth, env);
      o == Continue && r.chat.messages == v.chat.messages &&
      SystemCount(r.chat.messages) == SystemCount(v.chat.messages) &&
      !r.chat.persist && r.chatId == v.chatId && r.counters == v.counters
  {
    ResumeLine(v.chatId);
    StoreThenLoad(v.chatFiles, Record(v.chatId, v.model, v.provider, v.chat.messages), v.chatId);
  }

  /**
   * A prompt whose text loads itself recurses until the stack is
   * exhausted, and nothing changes on the way.
   */
  lemma {:induction false} SelfLoadExhaustsStack(v: View, name: string, depth: nat, env: Environment)
    requires EnvironmentOk(env) && IsWordText(name)
    requires BuildPrompt(env.prompts, name, []) == Some("/load " + name)
    ensures Dispatch(v, "/load " + name, depth, env) == (v, StackExhausted)
    decreases depth
  {
    LoadLine(name);
    if depth > 0 {
      SelfLoadExhaustsStack(v, name, depth - 1, env);
    }
  }

  /** A `/<name> <args>` or `/load` line whose prompt is found nowhere sends nothing and changes nothing. */
  lemma UnknownPromptChangesNothing(v: View, line: string, depth: nat, env: Environment)
    requires EnvironmentOk(env)
    requires (Classify(line).Named? && BuildPrompt(env.prompts, Classify(line).name, Classify(line).args).None?) ||
             (Classify(line).Load? && BuildPrompt(env.prompts, Classify(line).name, Classify(line).args).None?)
    ensures Dispatch(v, line, depth, env) == (v, Continue)
  {
  }

  /** A line with no command character at any line start is sent to the model as it is. */
  lemma {:induction false} PlainLineIsAsked(v: View, line: string, depth: nat, env: Environment)
    requires EnvironmentOk(env) && forall q :: !CommandAt(line, q)
    ensures Dispatch(v, line, depth, env) == (Converse(v, line, env.replies, env.prices), Continue)
  {
    AskIffNoCommand(line);
  }

  /** The transcript invariant, for the live chat and every stored record. */
  predicate SingleSystemState(v: View) {
    SingleSystem(v.chat.messages) && RecordsSingleSystem(v.chatFiles)
  }

  lemma {:induction false} ConverseKeepsSingleSystem(v: View, text: string, env: Environment)
    requires EnvironmentOk(env) && SingleSystemState(v)
    ensures SingleSystemState(Converse(v, text, env.replies, env.prices))
  {
    var r := Converse(v, text, env.replies, env.prices);
    ConverseEffect(v, text, env.replies, env.prices);
    NoSystemCountsZero([UserMessage(text)] + env.replies);
    SystemCountAppend(v.chat.messages, [UserMessage(text)] + env.replies);
    assert r.chat.messages == v.chat.messages + ([UserMessage(text)] + env.replies);
    StoreKeepsSingleSystem(v.chatFiles, Record(v.chatId, v.model, v.provider, r.chat.messages));
  }

  lemma StoreKeepsSingleSystem(files: ChatFiles, rec: Record)
    requires RecordsSingleSystem(files) && SingleSystem(rec.messages)
    ensures RecordsSingleSystem(Store(files, rec))
  {
  }

  /**
   * Dispatching any line keeps at most one system message in the live
   * chat and in every stored record.
   */
  lemma {:induction false} DispatchKeepsSingleSystem(v: View, line: string, depth: nat, env: Environment)
    requires EnvironmentOk(env) && SingleSystemState(v)
    ensures SingleSystemState(Dispatch(v, line, depth, env).0)
    decreases depth
  {
    match Classify(line)
    case Load(name, args) =>
      var built := BuildPrompt(env.prompts, name, args);
      if built.Some? && depth > 0 {
        DispatchKeepsSingleSystem(v, built.value, depth - 1, env);
      }
    case Bang(cmd) =>
      SystemCountAppend(v.chat.messages, [ShellMessage(cmd, env.shellOutput)]);
    case Named(name, args) =>
      var built := BuildPrompt(env.prompts, name, args);
      if built.Some? {
        ConverseKeepsSingleSystem(v, built.value, env);
      }
    case Ask(text) =>
      ConverseKeepsSingleSystem(v, text, env);
    case _ =>
  }

  /** Neither the state's nor the live chat's persistence switch is on. */
  predicate NeverSaves(v: View) { !v.persist && !v.chat.persist }

  /** With persistence off, no line ever writes the chat store, and persistence stays off. */
  lemma {:induction false} NoPersistNeverWrites(v: View, line: string, depth: nat, env: Environment)
    requires EnvironmentOk(env) && NeverSaves(v)
    ensures var r := Dispatch(v, line, depth, env).0; NeverSaves(r) && r.chatFiles == v.chatFiles
    decreases depth
  {
    match Classify(line)
    case Load(name, args) =>
      var built := BuildPrompt(env.prompts, name, args);
      if built.Some? && depth > 0 {
        NoPersistNeverWrites(v, built.value, depth - 1, env);
      }
    case Named(name, args) =>
      var built := BuildPrompt(env.prompts, name, args);
      if built.Some? {
        ConverseEffect(v, built.value, env.replies, env.prices);
      }
    case Ask(text) =>
      ConverseEffect(v, text, env.replies, env.prices);
    case _ =>
  }

  // ---------------------------------------------------------------------
  // Start-up and the persistence switch

  /** The state `configure` leaves: zeroed counters and a fresh chat seeded with the instructions. */
  function Configured(model: string, provider: string, instructions: Option<string>, chatId: string,
                      persist: bool, files: ChatFiles): (v: View)
    ensures v.counters == Zero && v.chat.messages == Seed(instructions) && v.chat.persist == persist
  {
    View(model, provider, instructions, ChatView(Seed(instructions), model, provider, persist),
         chatId, Zero, persist, files)
  }

  /**
   * As written, setting `DETRITUS_NO_PERSIST` turns persistence on: the
   * first reply to a plain line is saved to the store.
   */
  lemma {:induction false} NoPersistStillSavesAsWritten(model: string, provider: string, chatId: string, reply: Message, env: Environment)
    requires EnvironmentOk(env) && env.replies == [reply]
    ensures var v := Configured(model, provider, None, chatId, PersistFlagAsWritten(true), map[]);
      chatId in Dispatch(v, "hi", 0, env).0.chatFiles
  {
    var v := Configured(model, provider, None, chatId, PersistFlagAsWritten(true), map[]);
    forall q ensures !CommandAt("hi", q) {
      if q > 0 && q <= 2 { assert "hi"[q - 1] != '\n'; }
    }
    AskIffNoCommand("hi");
    ConverseEffect(v, "hi", env.replies, env.prices);
  }

  /**
   * With the switch read as its name means, setting `DETRITUS_NO_PERSIST`
   * keeps the chat store untouched by the first line and every line after.
   */
  lemma {:induction false} NoPersistSetNeverWrites(model: string, provider: string, instructions: Option<string>,
                                                   chatId: string, files: ChatFiles, line: string, depth: nat, env: Environment)
    requires EnvironmentOk(env)
    ensures var v := Configured(model, provider, instructions, chatId, PersistFlag(true), files);
      var r := Dispatch(v, line, depth, env).0;
      r.chatFiles == files && NeverSaves(r)
  {
    NoPersistNeverWrites(Configured(model, provider, instructions, chatId, PersistFlag(true), files), line, depth, env);
  }
}
