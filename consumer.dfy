/**
 * The worker's receive loop: fetch a message, hand its value to the handler,
 * commit it, and repeat until a fetch, the handler or a commit fails.
 */
module Consumer {
  import opened Wrappers
  import opened Domain
  import Carrier

  /** A fetched Kafka record: its offset in the partition, key, value and headers. */
  datatype Message = Message(offset: int, key: Bytes, value: Bytes, headers: seq<Carrier.Header>)

  /** The reader settings `NewConsumer` builds; a start offset of 0 leaves the reader's default. */
  datatype ReaderConfig = ReaderConfig(brokers: seq<string>, topic: string, groupID: string, startOffset: int)

  /** The only consumer option: where a group without a committed position starts reading. */
  datatype ConsumerOption = WithStartOffset(offset: int)

  /** Why `Consume` stopped: each carries the error the failing step returned. */
  datatype ConsumeError =
    | FetchFailed
    | HandlerFailed(cause: string)
    | CommitFailed

  /** The handler's verdict on a payload: no error, or the error it returned. */
  type Handler = Bytes -> Option<string>

  /**
   * What the broker hands this group from its current position: the messages
   * in order, the positions whose fetch fails (the worker's context ending
   * is the fetch after the last message), and the offsets whose commit fails.
   */
  datatype Broker = Broker(stream: seq<Message>, fetchFaults: set<nat>, commitFaults: set<int>)

  /** The start offset after applying `opts` in order to a config whose start offset is `current`. */
  function StartOffsetAfter(opts: seq<ConsumerOption>, current: int): int {
    if opts == [] then current else StartOffsetAfter(opts[1..], opts[0].offset)
  }

  /** Each option overwrites the start offset, so the last one wins. */
  lemma {:induction false} LastOptionWins(opts: seq<ConsumerOption>, current: int, offset: int)
    ensures StartOffsetAfter(opts + [WithStartOffset(offset)], current) == offset
    decreases |opts|
  {
    if opts != [] {
      assert (opts + [WithStartOffset(offset)])[1..] == opts[1..] + [WithStartOffset(offset)];
      LastOptionWins(opts[1..], opts[0].offset, offset);
    }
  }

  /** After a non-empty list of options the start offset is the last option's. */
  lemma {:induction false} StartOffsetIsLast(opts: seq<ConsumerOption>, current: int)
    requires opts != []
    ensures StartOffsetAfter(opts, current) == opts[|opts| - 1].offset
    decreases |opts|
  {
    var init := opts[..|opts| - 1];
    assert opts == init + [WithStartOffset(opts[|opts| - 1].offset)];
    LastOptionWins(init, current, opts[|opts| - 1].offset);
  }

  /** The config `NewConsumer` hands the reader: brokers, topic and group, then each option in order. */
  method NewReaderConfig(brokers: seq<string>, topic: string, groupID: string, opts: seq<ConsumerOption>)
    returns (cfg: ReaderConfig)
    ensures cfg.brokers == brokers && cfg.topic == topic && cfg.groupID == groupID
    ensures opts == [] ==> cfg.startOffset == 0
    ensures opts != [] ==> cfg.startOffset == opts[|opts| - 1].offset
  {
    cfg := ReaderConfig(brokers, topic, groupID, 0);
    for i := 0 to |opts|
      invariant cfg.brokers == brokers && cfg.topic == topic && cfg.groupID == groupID
      invariant StartOffsetAfter(opts[i..], cfg.startOffset) == StartOffsetAfter(opts, 0)
    {
      assert opts[i..][1..] == opts[i + 1..];
      cfg := cfg.(startOffset := opts[i].offset);
    }
    assert opts[|opts|..] == [];
    if opts != [] {
      StartOffsetIsLast(opts, 0);
    }
  }

  /** Message `i` is fetched, handled without error and committed. */
  predicate Clean(b: Broker, handler: Handler, i: nat) {
    && i < |b.stream|
    && i !in b.fetchFaults
    && handler(b.stream[i].value).None?
    && b.stream[i].offset !in b.commitFaults
  }

  /** Where a run of the loop from position `pos` stops, and why. */
  datatype Halt = Halt(at: nat, err: ConsumeError)

  /**
   * The loop from position `pos`: it stops at the first position that is not
   * clean, with the error of the first step that failed there.
   */
  function Run(b: Broker, handler: Handler, pos: nat): (h: Halt)
    ensures pos <= h.at && (pos <= |b.stream| ==> h.at <= |b.stream|)
    ensures forall i :: pos <= i < h.at ==> Clean(b, handler, i)
    ensures !Clean(b, handler, h.at)
    ensures h.err == FetchFailed <==> h.at >= |b.stream| || h.at in b.fetchFaults
    ensures h.err.HandlerFailed? ==> h.at < |b.stream| && handler(b.stream[h.at].value) == Some(h.err.cause)
    ensures h.err == CommitFailed ==>
              h.at < |b.stream| && handler(b.stream[h.at].value).None? && b.stream[h.at].offset in b.commitFaults
    decreases |b.stream| - pos
  {
    if pos >= |b.stream| || pos in b.fetchFaults then Halt(pos, FetchFailed)
    else
      var m := b.stream[pos];
      match handler(m.value)
      case Some(cause) => Halt(pos, HandlerFailed(cause))
      case None => if m.offset in b.commitFaults then Halt(pos, CommitFailed) else Run(b, handler, pos + 1)
  }

  /** The payloads of `msgs`, in order. */
  function Values(msgs: seq<Message>): (vs: seq<Bytes>)
    ensures |vs| == |msgs| && forall i :: 0 <= i < |msgs| ==> vs[i] == msgs[i].value
  {
    seq(|msgs|, i requires 0 <= i < |msgs| => msgs[i].value)
  }

  /** How many messages a run that stops at `h` fetched: the failing one too, unless its fetch failed. */
  function Fetched(h: Halt): (n: nat) {
    if h.err == FetchFailed then h.at else h.at + 1
  }

  /** With nothing failing, a run from the start commits every message and ends when the context does. */
  lemma {:induction false} CleanRunCommitsAll(b: Broker, handler: Handler, pos: nat)
    requires b.fetchFaults == {} && b.commitFaults == {}
    requires forall i :: 0 <= i < |b.stream| ==> handler(b.stream[i].value).None?
    requires pos <= |b.stream|
    ensures Run(b, handler, pos) == Halt(|b.stream|, FetchFailed)
    decreases |b.stream| - pos
  {
    if pos < |b.stream| {
      CleanRunCommitsAll(b, handler, pos + 1);
    }
  }

  /** A handler error at the first message stops the loop there, with nothing committed. */
  lemma HandlerErrorFirst(b: Broker, handler: Handler, pos: nat, cause: string)
    requires pos < |b.stream| && pos !in b.fetchFaults && handler(b.stream[pos].value) == Some(cause)
    ensures Run(b, handler, pos) == Halt(pos, HandlerFailed(cause))
  {
  }

  /** The reader: the broker's side of the loop, and what has been fetched and committed. */
  class Reader {
    const broker: Broker
    var next: nat
    var committed: seq<Message>

    ghost predicate Valid()
      reads this
    {
      next <= |broker.stream|
    }

    constructor (broker: Broker)
      ensures Valid() && this.broker == broker && next == 0 && committed == []
    {
      this.broker := broker;
      next := 0;
      committed := [];
    }

    /** The next message, or the fetch's error; a failed fetch does not move the reader. */
    method FetchMessage() returns (r: Result<Message, ConsumeError>)
      requires Valid()
      modifies this
      ensures Valid() && committed == old(committed)
      ensures old(next) >= |broker.stream| || old(next) in broker.fetchFaults ==>
                r == Failure(FetchFailed) && next == old(next)
      ensures old(next) < |broker.stream| && old(next) !in broker.fetchFaults ==>
                r == Success(broker.stream[old(next)]) && next == old(next) + 1
    {
      if next >= |broker.stream| || next in broker.fetchFaults {
        return Failure(FetchFailed);
      }
      r := Success(broker.stream[next]);
      next := next + 1;
    }

    /** Commits `msg`, or returns the commit's error and commits nothing. */
    method CommitMessages(msg: Message) returns (err: Option<ConsumeError>)
      modifies this
      ensures next == old(next)
      ensures msg.offset in broker.commitFaults ==> err == Some(CommitFailed) && committed == old(committed)
      ensures msg.offset !in broker.commitFaults ==> err == None && committed == old(committed) + [msg]
    {
      if msg.offset in broker.commitFaults {
        return Some(CommitFailed);
      }
      committed := committed + [msg];
      return None;
    }
  }

  class Consumer {
    const reader: Reader
    const config: ReaderConfig
    /** The payloads handed to the handler so far, in order. */
    ghost var delivered: seq<Bytes>

    ghost predicate Valid()
      reads this, reader
    {
      reader.Valid()
    }

    constructor (brokers: seq<string>, topic: string, groupID: string, opts: seq<ConsumerOption>, broker: Broker)
      ensures Valid() && fresh(reader) && delivered == []
      ensures reader.broker == broker && reader.next == 0 && reader.committed == []
      ensures config.brokers == brokers && config.topic == topic && config.groupID == groupID
      ensures config.startOffset == StartOffsetAfter(opts, 0)
    {
      var cfg := NewReaderConfig(brokers, topic, groupID, opts);
      if opts != [] {
        StartOffsetIsLast(opts, 0);
      }
      config := cfg;
      reader := new Reader(broker);
      delivered := [];
    }

    /** Hands the message's value to the handler and returns its error, if any. */
    method ProcessMessage(msg: Message, handler: Handler) returns (err: Option<string>)
      modifies this
      ensures delivered == old(delivered) + [msg.value]
      ensures err == handler(msg.value)
    {
      delivered := delivered + [msg.value];
      err := handler(msg.value);
    }

    /**
     * Fetches, handles and commits one message at a time, in order, until a
     * step fails; returns that step's error, never nil. Every message before
     * the failing one is committed; the failing one is not.
     */
    method Consume(handler: Handler) returns (err: Option<ConsumeError>)
      requires Valid()
      modifies this, reader
      ensures Valid()
      ensures var h := Run(reader.broker, handler, old(reader.next));
              && err == Some(h.err)
              && reader.committed == old(reader.committed) + reader.broker.stream[old(reader.next)..h.at]
              && reader.next == Fetched(h)
              && delivered == old(delivered) + Values(reader.broker.stream[old(reader.next)..Fetched(h)])
    {
      var b := reader.broker;
      ghost var start := reader.next;
      ghost var h := Run(b, handler, start);
      while true
        invariant Valid()
        invariant start <= reader.next <= |b.stream|
        invariant Run(b, handler, reader.next) == h
        invariant reader.committed == old(reader.committed) + b.stream[start..reader.next]
        invariant delivered == old(delivered) + Values(b.stream[start..reader.next])
        decreases |b.stream| - reader.next
      {
        ghost var pos := reader.next;
        var fetched := reader.FetchMessage();
        if fetched.Failure? {
          return Some(fetched.error);
        }
        var msg := fetched.value;
        assert b.stream[start..pos + 1] == b.stream[start..pos] + [msg];
        var handled := ProcessMessage(msg, handler);
        if handled.Some? {
          return Some(HandlerFailed(handled.value));
        }
        var committing := reader.CommitMessages(msg);
        if committing.Some? {
          return committing;
        }
      }
    }
  }
}
