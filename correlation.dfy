/**
 * The table that pairs each waiting question with the reply that answers it
 * (`pending_questions`), and the bot's inbound filter (`on_message`) that
 * resolves entries of it.
 */
module Correlation {

  import opened Wrappers

  /** A Discord snowflake. */
  type ThreadId = int

  /** Index of a future among all futures ever registered. */
  type Ticket = nat

  /** The state of one awaited reply (an asyncio future). */
  datatype FutureState = Waiting | Done(reply: string) | Cancelled

  /** The channel a message was posted in: a thread with its parent channel, or anything else. */
  datatype Channel = ThreadChannel(id: ThreadId, parentId: int) | OtherChannel(id: int)

  datatype Message = Message(authorId: int, channel: Channel, content: string)

  /** The bot's own account, the watched channel and the one user whose replies count. */
  datatype Targets = Targets(botId: int, channelId: int, userId: int)

  /**
   * The thread a message answers, if any: it is not the bot's own, it is
   * posted in a thread whose parent is the watched channel, and its author is
   * the watched user.
   */
  function ReplyTarget(msg: Message, targets: Targets): (thread: Option<ThreadId>)
    ensures thread.Some? <==>
              && msg.authorId != targets.botId
              && msg.channel.ThreadChannel?
              && msg.channel.parentId == targets.channelId
              && msg.authorId == targets.userId
    ensures thread.Some? ==> thread.value == msg.channel.id
  {
    if msg.authorId == targets.botId then None
    else if msg.channel.ThreadChannel? && msg.channel.parentId == targets.channelId
            && msg.authorId == targets.userId
    then Some(msg.channel.id)
    else None
  }

  /** The content of the first of `msgs` that answers `thread`. */
  function FirstReply(msgs: seq<Message>, targets: Targets, thread: ThreadId): (reply: Option<string>)
    ensures reply.None? <==> forall i | 0 <= i < |msgs| :: ReplyTarget(msgs[i], targets) != Some(thread)
    ensures reply.Some? ==> exists i | 0 <= i < |msgs| ::
              && ReplyTarget(msgs[i], targets) == Some(thread)
              && msgs[i].content == reply.value
              && forall j | 0 <= j < i :: ReplyTarget(msgs[j], targets) != Some(thread)
  {
    if msgs == [] then None
    else if ReplyTarget(msgs[0], targets) == Some(thread) then Some(msgs[0].content)
    else
      var rest := FirstReply(msgs[1..], targets, thread);
      assert forall i | 1 <= i < |msgs| :: msgs[i] == msgs[1..][i - 1];
      rest
  }

  /** Messages after the first answer do not change which answer is taken. */
  lemma {:induction false} FirstReplyAppend(msgs: seq<Message>, msg: Message, targets: Targets, thread: ThreadId)
    ensures FirstReply(msgs + [msg], targets, thread) ==
            if FirstReply(msgs, targets, thread).Some? then FirstReply(msgs, targets, thread)
            else if ReplyTarget(msg, targets) == Some(thread) then Some(msg.content)
            else None
  {
    if msgs != [] {
      assert (msgs + [msg])[1..] == msgs[1..] + [msg];
      FirstReplyAppend(msgs[1..], msg, targets, thread);
    }
  }

  /** Futures that are done or cancelled keep their state for good. */
  ghost predicate Settled(before: seq<FutureState>, after: seq<FutureState>) {
    && |before| <= |after|
    && forall i | 0 <= i < |before| :: before[i] != Waiting ==> after[i] == before[i]
  }

  /**
   * `pending_questions`: for each thread with a question in flight, the
   * future its asker waits on. Every future ever created stays in `futures`
   * so that a superseded one can still be told apart.
   */
  class CorrelationTable {
    var pending: map<ThreadId, Ticket>
    var futures: seq<FutureState>

    ghost predicate Valid()
      reads this
    {
      forall t | t in pending :: pending[t] < |futures|
    }

    constructor()
      ensures Valid() && pending == map[] && futures == []
    {
      pending := map[];
      futures := [];
    }

    /**
     * `pending_questions[thread.id] = future`: a fresh waiting future, which
     * replaces any entry already held for the thread.
     */
    method Register(thread: ThreadId) returns (ticket: Ticket)
      requires Valid()
      modifies this
      ensures Valid()
      ensures ticket == |old(futures)| && futures == old(futures) + [Waiting]
      ensures pending == old(pending)[thread := ticket]
      ensures Settled(old(futures), futures)
    {
      ticket := |futures|;
      futures := futures + [Waiting];
      pending := pending[thread := ticket];
    }

    /**
     * The body of `on_message` once a reply is accepted: the entry is popped,
     * and its future takes the reply only if it is still waiting.
     */
    method Resolve(thread: ThreadId, reply: string) returns (claimed: bool)
      requires Valid()
      modifies this
      ensures Valid()
      ensures claimed <==> thread in old(pending) && old(futures)[old(pending)[thread]] == Waiting
      ensures pending == old(pending) - {thread}
      ensures futures == if claimed then old(futures)[old(pending)[thread] := Done(reply)] else old(futures)
      ensures Settled(old(futures), futures)
    {
      claimed := false;
      if thread in pending {
        var ticket := pending[thread];
        pending := pending - {thread};
        if futures[ticket] == Waiting {
          futures := futures[ticket := Done(reply)];
          claimed := true;
        }
      }
    }

    /**
     * The timeout path of `ask`: the wait cancels its own future, then
     * `pending_questions.pop(thread.id, None)` drops whatever entry the
     * thread holds.
     */
    method Expire(thread: ThreadId, ticket: Ticket)
      requires Valid() && ticket < |futures|
      modifies this
      ensures Valid()
      ensures pending == old(pending) - {thread}
      ensures futures == old(futures)[ticket := if old(futures)[ticket] == Waiting then Cancelled else old(futures)[ticket]]
      ensures Settled(old(futures), futures)
    {
      if futures[ticket] == Waiting {
        futures := futures[ticket := Cancelled];
      }
      pending := pending - {thread};
    }
  }

  /** The part of `HumanInTheLoopBot` that routes replies into the table. */
  class Bot {
    const targets: Targets
    const table: CorrelationTable

    constructor(targets: Targets, table: CorrelationTable)
      ensures this.targets == targets && this.table == table
    {
      this.targets := targets;
      this.table := table;
    }

    /** `on_message`: messages that answer no thread leave the table alone. */
    method OnMessage(msg: Message) returns (claimed: bool)
      requires table.Valid()
      modifies table
      ensures table.Valid()
      ensures ReplyTarget(msg, targets).None? ==>
                !claimed && table.pending == old(table.pending) && table.futures == old(table.futures)
      ensures ReplyTarget(msg, targets).Some? ==>
                var thread := msg.channel.id;
                && (claimed <==> thread in old(table.pending) && old(table.futures)[old(table.pending)[thread]] == Waiting)
                && table.pending == old(table.pending) - {thread}
                && table.futures == if claimed then old(table.futures)[old(table.pending)[thread] := Done(msg.content)]
                                    else old(table.futures)
      ensures Settled(old(table.futures), table.futures)
    {
      claimed := false;
      if msg.authorId == targets.botId {
        return;
      }
      if msg.channel.ThreadChannel? && msg.channel.parentId == targets.channelId
         && msg.authorId == targets.userId {
        claimed := table.Resolve(msg.channel.id, msg.content);
      }
    }
  }

  /**
   * A second reply in the same thread is a no-op: once the first one has
   * popped the entry, nothing is pending for the thread any more.
   */
  method SecondReplyIgnored(bot: Bot, first: Message, second: Message) returns (claimedFirst: bool, claimedSecond: bool)
    requires bot.table.Valid()
    requires ReplyTarget(first, bot.targets).Some? && ReplyTarget(second, bot.targets) == ReplyTarget(first, bot.targets)
    modifies bot.table
    ensures !claimedSecond
    ensures first.channel.id !in bot.table.pending
  {
    claimedFirst := bot.OnMessage(first);
    claimedSecond := bot.OnMessage(second);
  }

  /**
   * Whichever comes first, a reply or the timeout, the other finds nothing
   * to act on: a claimed reply leaves no entry behind, and after the timeout
   * a late reply finds no entry and the future stays cancelled.
   */
  method ReplyOrTimeout(bot: Bot, thread: ThreadId, reply: Message, replyFirst: bool)
      returns (claimedByReply: bool, outcome: FutureState)
    requires bot.table.Valid()
    requires ReplyTarget(reply, bot.targets) == Some(thread)
    modifies bot.table
    ensures claimedByReply <==> replyFirst
    ensures outcome == if replyFirst then Done(reply.content) else Cancelled
    ensures thread !in bot.table.pending
  {
    var ticket := bot.table.Register(thread);
    if replyFirst {
      claimedByReply := bot.OnMessage(reply);
    } else {
      bot.table.Expire(thread, ticket);
      claimedByReply := bot.OnMessage(reply);
    }
    outcome := bot.table.futures[ticket];
  }

  /**
   * A second question in the same thread replaces the entry of the first:
   * the next reply answers the second question and the first one's future
   * is left waiting until its own timeout.
   */
  method SecondQuestionTakesReply(bot: Bot, thread: ThreadId, reply: Message) returns (first: Ticket, second: Ticket)
    requires bot.table.Valid()
    requires ReplyTarget(reply, bot.targets) == Some(thread)
    modifies bot.table
    ensures first < second < |bot.table.futures|
    ensures bot.table.futures[first] == Waiting
    ensures bot.table.futures[second] == Done(reply.content)
    ensures thread !in bot.table.pending
  {
    first := bot.table.Register(thread);
    second := bot.table.Register(thread);
    var _ := bot.OnMessage(reply);
  }
}
