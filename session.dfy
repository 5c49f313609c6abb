/**
 * One conversation with the human (`HumanInDiscord`): the persistent thread
 * it lives in, the count and history of the messages exchanged, and the
 * asking and reporting operations. Everything Discord answers is passed in
 * as a `Discord` value; the replies that arrive while a question waits are
 * passed in as a sequence of inbound messages.
 */
module Session {

  import opened Wrappers
  import opened Text
  import opened ThreadNaming
  import opened TitleSynthesis
  import opened Correlation

  datatype ChannelKind = Forum | TextChannel

  /** A message shown in a thread, including the opening post of a forum thread. */
  datatype Post = Post(thread: ThreadId, text: string)

  /** A thread that is ready for use, and whether its parent is a forum. */
  datatype Acquired = Acquired(thread: ThreadId, forum: bool)

  /** What Discord and the title generator answer during one operation. */
  datatype Discord = Discord(
    userFound: bool,               // `get_user` or `fetch_user` found the watched user
    liveThreads: set<ThreadId>,    // threads `get_channel` resolves and that are not archived
    channel: Option<ChannelKind>,  // what `get_channel(channel_id)` resolves to
    creation: Result<ThreadId>,    // the new thread, or the exception `create_thread` raises
    sendFailure: Option<string>,   // the exception `thread.send` raises, if any
    generated: Option<string>,     // the title generator's answer, if any
    renameFails: bool)             // `thread.edit` raises

  const TimeoutAnswer: string := "No response received within 6 hours"

  /** The cached thread is used again: an id is cached (and not 0), and the thread is live. */
  predicate Reusable(threadId: Option<ThreadId>, env: Discord): (live: bool)
    ensures live ==> threadId.Some? && threadId.value in env.liveThreads
    ensures threadId == Some(0) ==> !live
  {
    threadId.Some? && threadId.value != 0 && threadId.value in env.liveThreads
  }

  /** The exception text for a watched channel that cannot be found. */
  function ChannelMissing(channelId: int): (msg: string)
    ensures |msg| > 18 && msg[..8] == "Channel " && msg[|msg| - 10..] == " not found"
    ensures msg[8..|msg| - 10] == IntToString(channelId)
  {
    "Channel " + IntToString(channelId) + " not found"
  }

  /** The answer `ask` gives when the watched user cannot be found: an "Error: " answer like its other failures. */
  function UserMissing(userId: int): (msg: string)
    ensures |msg| > 22 && msg[..7] == "Error: " && msg[|msg| - 10..] == " not found"
    ensures msg[7..12] == "User " && msg[12..|msg| - 10] == IntToString(userId)
  {
    "Error: User " + IntToString(userId) + " not found"
  }

  /**
   * The exception that getting the thread and sending the text raises, if
   * any. A reused thread always gets the text sent; a new forum thread
   * already opens with it, a new ordinary thread gets it sent.
   */
  function PublishError(reuse: bool, channelId: int, env: Discord): (e: Option<string>)
    ensures reuse ==> e == env.sendFailure
    ensures !reuse && env.channel.None? ==> e == Some(ChannelMissing(channelId))
    ensures e.None? ==> reuse || (env.channel.Some? && env.creation.Success?)
    ensures !reuse && env.channel.Some? && env.creation.Success? && env.sendFailure.None? ==> e.None?
    ensures !reuse && env.channel == Some(Forum) && env.creation.Success? ==> e.None?
    ensures !reuse && env.channel == Some(TextChannel) && env.creation.Success? ==> e == env.sendFailure
    ensures !reuse && env.channel.Some? && env.creation.Failure? ==> e == Some(env.creation.error)
  {
    if reuse then env.sendFailure
    else match env.channel
      case None => Some(ChannelMissing(channelId))
      case Some(kind) =>
        match env.creation
        case Failure(e) => Some(e)
        case Success(_) => if kind == Forum then None else env.sendFailure
  }

  /** The fields of `HumanInDiscord` that describe the cached thread. */
  datatype ThreadState = ThreadState(
    threadId: Option<ThreadId>,
    threadTitle: Option<string>,
    isForum: Option<bool>,
    reused: bool)

  /** The invariant the cached-thread fields keep. */
  predicate ThreadStateOk(t: ThreadState) {
    && (t.threadId.Some? <==> t.threadTitle.Some?)
    && (t.threadId.Some? ==> t.isForum.Some?)
    && (t.threadTitle.Some? ==> 1 <= |t.threadTitle.value| <= MaxNameLength)
  }

  /**
   * The cached-thread fields after `get_or_create_thread`, whether or not it
   * raises: a live cached thread is kept; otherwise the channel kind is noted
   * once the channel is found, and a created thread replaces the cached one.
   */
  function Acquire(t: ThreadState, question: string, env: Discord): (after: ThreadState)
    ensures ThreadStateOk(t) ==> ThreadStateOk(after)
    ensures Reusable(t.threadId, env) ==> after == t.(reused := true)
    ensures after.threadId == t.threadId || (env.creation.Success? && after.threadId == Some(env.creation.value))
    ensures after.threadId != t.threadId ==> after.threadTitle == Some(ThreadName(question)) && !after.reused
    ensures env.channel.None? ==> after.isForum == t.isForum
  {
    if Reusable(t.threadId, env) then t.(reused := true)
    else match env.channel
      case None => t
      case Some(kind) =>
        var noted := t.(isForum := Some(kind == Forum));
        match env.creation
        case Failure(_) => noted
        case Success(id) => ThreadState(Some(id), Some(ThreadName(question)), Some(kind == Forum), false)
  }

  /** A created thread that stays live is the one the next call reuses, whatever it is asked. */
  lemma CreatedThreadReused(t: ThreadState, question: string, env: Discord, next: string, later: Discord)
    requires !Reusable(t.threadId, env) && env.channel.Some? && env.creation.Success?
    requires env.creation.value != 0 && env.creation.value in later.liveThreads
    ensures var created := Acquire(t, question, env);
            && created.threadId == Some(env.creation.value)
            && Acquire(created, next, later) == created.(reused := true)
  {
  }

  /**
   * A live cached thread keeps its id and its title across a counted message
   * when no retitle is due.
   */
  lemma ReusedThreadKept(t: ThreadState, question: string, env: Discord, history: seq<string>)
    requires Reusable(t.threadId, env) && !TitleCheckDue(|history|)
    ensures var after := AfterCount(Acquire(t, question, env), history, env);
            after.threadId == t.threadId && after.threadTitle == t.threadTitle && after.reused
  {
  }

  /**
   * `update_thread_title_if_needed`: the title the thread ends up with. A
   * produced title different from the current one replaces it unless the
   * rename fails.
   */
  function Retitled(current: Option<string>, history: seq<string>, env: Discord): (title: Option<string>)
    ensures title == current || (title == AnalyzeConversation(history, env.generated) && !env.renameFails)
    ensures |history| < TitleWindow || env.renameFails ==> title == current
    ensures title != current ==> title.Some? && 1 <= |title.value| <= MaxNameLength
  {
    var produced := AnalyzeConversation(history, env.generated);
    if produced.Some? && produced.value != [] && produced != current && !env.renameFails then produced
    else current
  }

  /**
   * The cached-thread fields once a message has been counted into `history`
   * and the thread is known: the title is reconsidered only when the count
   * is due.
   */
  function AfterCount(t: ThreadState, history: seq<string>, env: Discord): (after: ThreadState)
    requires t.threadId.Some?
    ensures after.threadId == t.threadId && after.isForum == t.isForum && after.reused == t.reused
    ensures !TitleCheckDue(|history|) ==> after == t
    ensures ThreadStateOk(t) ==> ThreadStateOk(after)
  {
    if TitleCheckDue(|history|) then t.(threadTitle := Retitled(t.threadTitle, history, env)) else t
  }

  class HumanInDiscord {
    const bot: Bot
    const channelId: int
    const userId: int
    var threadId: Option<ThreadId>
    var threadTitle: Option<string>
    var isForum: Option<bool>
    var threadReused: bool
    var conversationCount: nat
    var conversationHistory: seq<string>
    var posts: seq<Post>

    ghost predicate Valid()
      reads this, bot.table
    {
      && conversationCount == |conversationHistory|
      && bot.targets.channelId == channelId && bot.targets.userId == userId
      && ThreadStateOk(Thread())
      && bot.table.Valid()
    }

    function Thread(): ThreadState
      reads this
    {
      ThreadState(threadId, threadTitle, isForum, threadReused)
    }

    constructor(bot: Bot, channelId: int, userId: int)
      requires bot.table.Valid()
      requires bot.targets.channelId == channelId && bot.targets.userId == userId
      ensures Valid()
      ensures this.bot == bot && this.channelId == channelId && this.userId == userId
      ensures threadId.None? && threadTitle.None? && isForum.None? && !threadReused
      ensures conversationCount == 0 && conversationHistory == [] && posts == []
    {
      this.bot := bot;
      this.channelId := channelId;
      this.userId := userId;
      threadId := None;
      threadTitle := None;
      isForum := None;
      threadReused := false;
      conversationCount := 0;
      conversationHistory := [];
      posts := [];
    }

    /**
     * `get_or_create_thread`: the cached thread while it is live; otherwise a
     * new thread in the watched channel, named after `question`, which
     * becomes the cached one.
     */
    method GetOrCreateThread(question: string, env: Discord) returns (r: Result<Acquired>)
      requires Valid()
      modifies this
      ensures Valid()
      ensures conversationHistory == old(conversationHistory) && conversationCount == old(conversationCount)
      ensures Reusable(old(threadId), env) ==>
                && r == Success(Acquired(old(threadId).value, old(isForum).value))
                && threadReused
                && threadId == old(threadId) && threadTitle == old(threadTitle)
                && isForum == old(isForum) && posts == old(posts)
      ensures !Reusable(old(threadId), env) && env.channel.None? ==>
                && r == Failure(ChannelMissing(channelId))
                && threadId == old(threadId) && threadTitle == old(threadTitle)
                && isForum == old(isForum) && threadReused == old(threadReused) && posts == old(posts)
      ensures !Reusable(old(threadId), env) && env.channel.Some? ==>
                var forum := env.channel.value == Forum;
                && isForum == Some(forum)
                && match env.creation
                   case Failure(e) =>
                     && r == Failure(e)
                     && threadId == old(threadId) && threadTitle == old(threadTitle)
                     && threadReused == old(threadReused) && posts == old(posts)
                   case Success(id) =>
                     && r == Success(Acquired(id, forum))
                     && threadId == Some(id) && threadTitle == Some(ThreadName(question))
                     && !threadReused
                     && posts == old(posts) + (if forum then [Post(id, question)] else [])
      ensures Thread() == Acquire(old(Thread()), question, env)
    {
      if threadId.Some? && threadId.value != 0 && threadId.value in env.liveThreads {
        threadReused := true;
        return Success(Acquired(threadId.value, isForum.value));
      }
      r := CreateThread(question, env);
    }

    /**
     * The creating half of `get_or_create_thread`: look up the watched
     * channel, note whether it is a forum, and create a thread named after
     * `question` in it.
     */
    method CreateThread(question: string, env: Discord) returns (r: Result<Acquired>)
      requires Valid() && !Reusable(threadId, env)
      modifies this
      ensures Valid()
      ensures conversationHistory == old(conversationHistory) && conversationCount == old(conversationCount)
      ensures env.channel.None? ==>
                && r == Failure(ChannelMissing(channelId))
                && threadId == old(threadId) && threadTitle == old(threadTitle)
                && isForum == old(isForum) && threadReused == old(threadReused) && posts == old(posts)
      ensures env.channel.Some? ==> isForum == Some(env.channel.value == Forum)
      ensures env.channel.Some? && env.creation.Failure? ==>
                && r == Failure(env.creation.error)
                && threadId == old(threadId) && threadTitle == old(threadTitle)
                && threadReused == old(threadReused) && posts == old(posts)
      ensures env.channel.Some? && env.creation.Success? ==>
                var id := env.creation.value;
                var forum := env.channel.value == Forum;
                && r == Success(Acquired(id, forum))
                && threadId == Some(id) && threadTitle == Some(ThreadName(question))
                && !threadReused
                && posts == old(posts) + (if forum then [Post(id, question)] else [])
      ensures Thread() == Acquire(old(Thread()), question, env)
    {
      if env.channel.None? {
        return Failure(ChannelMissing(channelId));
      }
      var forum := env.channel.value == Forum;
      isForum := Some(forum);
      var name := ThreadName(question);
      r := OpenThread(question, name, forum, env.creation);
    }

    /** The thread `create_thread` opens, which becomes the cached one. */
    method OpenThread(question: string, name: string, forum: bool, creation: Result<ThreadId>) returns (r: Result<Acquired>)
      requires Valid() && isForum == Some(forum) && 1 <= |name| <= MaxNameLength
      modifies this
      ensures Valid() && isForum == old(isForum)
      ensures conversationHistory == old(conversationHistory) && conversationCount == old(conversationCount)
      ensures creation.Failure? ==>
                && r == Failure(creation.error)
                && threadId == old(threadId) && threadTitle == old(threadTitle)
                && threadReused == old(threadReused) && posts == old(posts)
      ensures creation.Success? ==>
                && r == Success(Acquired(creation.value, forum))
                && threadId == Some(creation.value) && threadTitle == Some(name)
                && !threadReused
                && posts == old(posts) + (if forum then [Post(creation.value, question)] else [])
    {
      if creation.Failure? {
        return Failure(creation.error);
      }
      var id := creation.value;
      if forum {
        // A forum thread opens with the question as its first post.
        posts := posts + [Post(id, question)];
      }
      threadId := Some(id);
      threadTitle := Some(name);
      threadReused := false;
      return Success(Acquired(id, forum));
    }

    /**
     * The steps `ask` and `report_message` share once the user is found: the
     * text joins the history, the thread is got or created, and the text is
     * sent unless a new forum thread already opened with it.
     */
    method Publish(text: string, env: Discord) returns (r: Result<ThreadId>)
      requires Valid()
      modifies this
      ensures Valid()
      ensures conversationHistory == old(conversationHistory) + [text]
      ensures conversationCount == old(conversationCount) + 1
      ensures r.Failure? <==> PublishError(Reusable(old(threadId), env), channelId, env).Some?
      ensures r.Failure? ==> r.error == PublishError(Reusable(old(threadId), env), channelId, env).value
      ensures r.Failure? ==> posts == old(posts)
      ensures r.Success? ==> threadId == Some(r.value) && posts == old(posts) + [Post(r.value, text)]
      ensures Reusable(old(threadId), env) ==> threadId == old(threadId) && threadTitle == old(threadTitle)
      ensures !Reusable(old(threadId), env) && r.Success? ==> threadTitle == Some(ThreadName(text))
      ensures Thread() == Acquire(old(Thread()), text, env)
    {
      ghost var reuse := Reusable(threadId, env);
      conversationHistory := conversationHistory + [text];
      conversationCount := conversationCount + 1;
      var acquired := GetOrCreateThread(text, env);
      if acquired.Failure? {
        assert PublishError(reuse, channelId, env) == Some(acquired.error);
        return Failure(acquired.error);
      }
      var thread := acquired.value.thread;
      if threadReused || !acquired.value.forum {
        assert PublishError(reuse, channelId, env) == env.sendFailure;
        if env.sendFailure.Some? {
          return Failure(env.sendFailure.value);
        }
        posts := posts + [Post(thread, text)];
      } else {
        assert PublishError(reuse, channelId, env).None?;
      }
      return Success(thread);
    }

    /**
     * `update_thread_title_if_needed`: the thread is renamed when the
     * conversation yields a title different from the current one; a failed
     * rename is swallowed and changes nothing.
     */
    method UpdateThreadTitle(env: Discord)
      requires Valid() && threadId.Some?
      modifies this
      ensures Valid()
      ensures threadTitle == Retitled(old(threadTitle), conversationHistory, env)
      ensures |conversationHistory| < TitleWindow ==> threadTitle == old(threadTitle)
      ensures threadId == old(threadId) && isForum == old(isForum) && threadReused == old(threadReused)
      ensures conversationHistory == old(conversationHistory) && conversationCount == old(conversationCount)
      ensures posts == old(posts)
    {
      var newTitle := AnalyzeConversation(conversationHistory, env.generated);
      if newTitle.Some? && newTitle.value != [] && Some(newTitle.value) != threadTitle {
        if !env.renameFails {
          threadTitle := newTitle;
        }
      }
    }

    /**
     * `report_message`: nothing happens when the user cannot be found;
     * otherwise the message is published and the title reconsidered at the
     * due counts. The result is the exception the call raises, if any.
     */
    method ReportMessage(message: string, env: Discord) returns (raised: Option<string>)
      requires Valid()
      modifies this
      ensures Valid()
      ensures !env.userFound ==> raised.None? && unchanged(this)
      ensures env.userFound ==>
                && conversationHistory == old(conversationHistory) + [message]
                && conversationCount == old(conversationCount) + 1
                && raised == PublishError(Reusable(old(threadId), env), channelId, env)
      ensures env.userFound && raised.Some? ==> posts == old(posts)
      ensures env.userFound && raised.None? ==>
                threadId.Some? && posts == old(posts) + [Post(threadId.value, message)]
      ensures env.userFound && raised.None? && !TitleCheckDue(conversationCount) ==>
                threadTitle == if Reusable(old(threadId), env) then old(threadTitle) else Some(ThreadName(message))
      ensures env.userFound ==>
                var acquired := Acquire(old(Thread()), message, env);
                && (raised.Some? ==> Thread() == acquired)
                && (raised.None? ==> acquired.threadId.Some? && Thread() == AfterCount(acquired, conversationHistory, env))
    {
      if !env.userFound {
        return None;
      }
      var published := Publish(message, env);
      if published.Failure? {
        return Some(published.error);
      }
      if TitleCheckDue(conversationCount) {
        UpdateThreadTitle(env);
      }
      return None;
    }

    /**
     * `ask`: the question is published and its thread registered in the
     * table; the inbound messages are routed one by one until the question
     * is answered. The answer is the first reply in its thread by the
     * watched user; without one the wait times out and the entry is dropped.
     * Failures come back as "Error: ..." answers.
     */
    method Ask(question: string, env: Discord, inbound: seq<Message>) returns (answer: string)
      requires Valid()
      modifies this, bot.table
      ensures Valid()
      ensures !env.userFound ==>
                && answer == UserMissing(userId)
                && unchanged(this) && unchanged(bot.table)
      ensures env.userFound ==>
                && |conversationHistory| > |old(conversationHistory)|
                && conversationHistory[..|old(conversationHistory)| + 1] == old(conversationHistory) + [question]
      ensures env.userFound && PublishError(Reusable(old(threadId), env), channelId, env).Some? ==>
                && answer == "Error: " + PublishError(Reusable(old(threadId), env), channelId, env).value
                && conversationHistory == old(conversationHistory) + [question]
                && posts == old(posts)
      ensures env.userFound && PublishError(Reusable(old(threadId), env), channelId, env).None? ==>
                && threadId.Some?
                && posts == old(posts) + [Post(threadId.value, question)]
                && threadId.value !in bot.table.pending
                && var reply := FirstReply(inbound, bot.targets, threadId.value);
                && (reply.Some? ==>
                      && answer == reply.value
                      && conversationHistory == old(conversationHistory) + [question, reply.value])
                && (reply.None? ==>
                      && answer == TimeoutAnswer
                      && conversationHistory == old(conversationHistory) + [question])
      ensures env.userFound ==>
                var acquired := Acquire(old(Thread()), question, env);
                && (PublishError(Reusable(old(threadId), env), channelId, env).Some? ==> Thread() == acquired)
                && (PublishError(Reusable(old(threadId), env), channelId, env).None? ==>
                      && acquired.threadId.Some?
                      && Thread() == if FirstReply(inbound, bot.targets, acquired.threadId.value).Some?
                                     then AfterCount(acquired, conversationHistory, env)
                                     else acquired)
    {
      if !env.userFound {
        return UserMissing(userId);
      }
      var published := Publish(question, env);
      if published.Failure? {
        return "Error: " + published.error;
      }
      answer := Converse(published.value, env, inbound);
    }

    /**
     * The part of `ask` after the question is out: wait for the reply, and
     * when it comes add it to the history and reconsider the title at the
     * due counts.
     */
    method Converse(thread: ThreadId, env: Discord, inbound: seq<Message>) returns (answer: string)
      requires Valid() && threadId == Some(thread)
      modifies this, bot.table
      ensures Valid()
      ensures threadId == old(threadId) && posts == old(posts)
      ensures thread !in bot.table.pending
      ensures var reply := FirstReply(inbound, bot.targets, thread);
              && (reply.Some? ==>
                    && answer == reply.value
                    && conversationHistory == old(conversationHistory) + [reply.value])
              && (reply.None? ==>
                    && answer == TimeoutAnswer
                    && conversationHistory == old(conversationHistory))
              && (reply.None? || !TitleCheckDue(conversationCount) ==> threadTitle == old(threadTitle))
      ensures var reply := FirstReply(inbound, bot.targets, thread);
              && (reply.Some? ==> Thread() == AfterCount(old(Thread()), conversationHistory, env))
              && (reply.None? ==> Thread() == old(Thread()))
    {
      var reply := AwaitReply(thread, inbound);
      if reply.Some? {
        conversationHistory := conversationHistory + [reply.value];
        conversationCount := conversationCount + 1;
        if TitleCheckDue(conversationCount) {
          UpdateThreadTitle(env);
        }
        return reply.value;
      }
      return TimeoutAnswer;
    }

    /**
     * The wait inside `ask`: a fresh future is registered for `thread`, the
     * inbound messages go through `on_message` until it is done, and a
     * future still waiting at the end times out and its entry is popped.
     */
    method AwaitReply(thread: ThreadId, inbound: seq<Message>) returns (reply: Option<string>)
      requires bot.table.Valid()
      modifies bot.table
      ensures bot.table.Valid()
      ensures reply == FirstReply(inbound, bot.targets, thread)
      ensures thread !in bot.table.pending
      ensures Settled(old(bot.table.futures), bot.table.futures)
    {
      var ticket := bot.table.Register(thread);
      var i := 0;
      while i < |inbound| && bot.table.futures[ticket] == Waiting
        invariant 0 <= i <= |inbound|
        invariant bot.table.Valid() && ticket < |bot.table.futures|
        invariant Settled(old(bot.table.futures), bot.table.futures)
        invariant forall t | t in bot.table.pending && t != thread :: bot.table.pending[t] != ticket
        invariant bot.table.futures[ticket] == Waiting ==>
                    && thread in bot.table.pending && bot.table.pending[thread] == ticket
                    && FirstReply(inbound[..i], bot.targets, thread).None?
        invariant bot.table.futures[ticket] != Waiting ==>
                    && thread !in bot.table.pending
                    && FirstReply(inbound[..i], bot.targets, thread).Some?
                    && bot.table.futures[ticket] == Done(FirstReply(inbound[..i], bot.targets, thread).value)
      {
        var _ := bot.OnMessage(inbound[i]);
        FirstReplyAppend(inbound[..i], inbound[i], bot.targets, thread);
        assert inbound[..i + 1] == inbound[..i] + [inbound[i]];
        i := i + 1;
      }
      if bot.table.futures[ticket].Done? {
        FirstReplyPrefix(inbound, i, bot.targets, thread);
        return Some(bot.table.futures[ticket].reply);
      }
      assert inbound[..i] == inbound;
      bot.table.Expire(thread, ticket);
      return None;
    }
  }

  /** Once a reply has been found among the first `n` messages, later ones do not matter. */
  lemma {:induction false} FirstReplyPrefix(msgs: seq<Message>, n: nat, targets: Targets, thread: ThreadId)
    requires n <= |msgs| && FirstReply(msgs[..n], targets, thread).Some?
    ensures FirstReply(msgs, targets, thread) == FirstReply(msgs[..n], targets, thread)
  {
    if ReplyTarget(msgs[0], targets) != Some(thread) {
      assert msgs[..n][1..] == msgs[1..][..n - 1];
      FirstReplyPrefix(msgs[1..], n - 1, targets, thread);
    }
  }
}
