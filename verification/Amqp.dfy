/** The queue consumer (src/services/amqp.ts) and the worker that sends transactions from it
    (src/lib/jobs/send-transactions.ts). */
module Amqp {
  import opened Wrappers
  import opened Jobs

  // A message is a value JavaScript takes for false, or a send request for a job.
  datatype Message = Falsy | Request(job: nat)

  // A delivery holds the message, if its content is JSON, and whether the schema accepts it.
  datatype Delivery = Delivery(tag: nat, content: Option<Message>, accepted: bool)

  // Whether a message schema is configured, and whether it compiles.
  datatype Schema = Missing | Broken | Usable

  // What the node and the database do to one send: the operation hash, or the message of the error
  // that stopped it before the last write; the error of that write, if it fails; and whether the
  // write of the error status fails.
  datatype Outcome = Outcome(sent: Result<string, string>, publishError: Option<string>, errorFails: bool)

  const PREFETCH := 1

  // ----- sending --------------------------------------------------------------------------------------

  predicate Publishes(t: Table, job: nat, o: Outcome) {
    job in t && o.sent.Ok? && o.publishError.None?
  }

  function ErrorMessage(o: Outcome): string {
    if o.sent.Err? then o.sent.error else if o.publishError.Some? then o.publishError.value else ""
  }

  /** The jobs table after sendTransactions: the last write that is reached and succeeds. */
  function Sent(t: Table, job: nat, o: Outcome): Table {
    if job !in t then t
    else if Publishes(t, job, o) then t[job := t[job].(status := Published, hash := Some(o.sent.value))]
    else if o.errorFails then t
    else t[job := t[job].(status := Error, message := Some(ErrorMessage(o)))]
  }

  /** Ordered writes: the published status and the hash, or, if anything before has failed, the error.
      An unknown job is refused before any write. */
  method SendTransactions(table: JobsTable, job: nat, o: Outcome) returns (thrown: bool)
    requires table.Valid()
    modifies table`rows
    ensures table.Valid() && table.rows == Sent(old(table.rows), job, o)
    ensures job !in old(table.rows) ==> table.rows == old(table.rows)
    ensures job in old(table.rows) ==>
              var row := old(table.rows)[job];
              table.rows == old(table.rows)[job :=
                match o.sent
                case Ok(hash) =>
                  if o.publishError.None? then Job(Published, Some(hash), row.message)
                  else if o.errorFails then row else Job(Error, row.hash, o.publishError)
                case Err(message) => if o.errorFails then row else Job(Error, row.hash, Some(message))]
    ensures thrown <==> job !in old(table.rows) || o.sent.Err? || o.publishError.Some?
  {
    if job !in table.rows { return true; }
    var message;
    if o.sent.Err? {
      message := o.sent.error;
    } else if o.publishError.Some? {
      message := o.publishError.value;
    } else {
      var _ := table.UpdateJobStatusAndOperationHash(Published, o.sent.value, job);
      return false;
    }
    if !o.errorFails {
      var _ := table.UpdateJobStatusAndErrorMessage(message, job);
    }
    return true;
  }

  // ----- the channel ------------------------------------------------------------------------------------

  /** The broker's side of a channel: what waits, what is out, and what has been acknowledged. */
  class Channel {
    var pending: seq<Delivery>
    var unacked: seq<Delivery>
    var acked: seq<Delivery>

    constructor (pending: seq<Delivery>)
      ensures this.pending == pending && unacked == [] && acked == []
    {
      this.pending, unacked, acked := pending, [], [];
    }

    /** Every delivery of the channel, in queue order. */
    ghost function All(): seq<Delivery>
      reads this
    {
      acked + unacked + pending
    }

    /** The broker hands out the next message while fewer than the prefetch count are out. */
    method Deliver() returns (d: Option<Delivery>)
      modifies this
      ensures All() == old(All()) && acked == old(acked)
      ensures if old(unacked) == [] && old(pending) != []
              then d == Some(old(pending)[0]) && unacked == old(unacked) + [d.value] && pending == old(pending)[1..]
              else d == None && unacked == old(unacked) && pending == old(pending)
    {
      if |unacked| >= PREFETCH || pending == [] { return None; }
      d := Some(pending[0]);
      assert acked + (unacked + [pending[0]]) + pending[1..] == acked + unacked + pending;
      unacked, pending := unacked + [pending[0]], pending[1..];
    }

    /** Acknowledging anything but the delivery that is out would close the channel. */
    method Ack(d: Delivery)
      requires unacked == [d]
      modifies this
      ensures unacked == [] && acked == old(acked) + [d] && pending == old(pending) && All() == old(All())
    {
      assert acked + unacked + pending == (acked + [d]) + [] + pending;
      unacked, acked := [], acked + [d];
    }
  }

  // ----- the consumer -------------------------------------------------------------------------------------

  /** The handler is called: the message is JSON, the schema accepts it, and it is not falsy. */
  predicate IsHandled(d: Delivery, schema: Schema) {
    schema == Usable && d.content.Some? && d.accepted && d.content.value.Request?
  }

  function Handled(ds: seq<Delivery>, schema: Schema): seq<Delivery> {
    if ds == [] then []
    else Handled(ds[..|ds| - 1], schema) + if IsHandled(ds[|ds| - 1], schema) then [ds[|ds| - 1]] else []
  }

  /** The jobs table after the handled messages, in order. */
  function AfterAll(t: Table, ds: seq<Delivery>, schema: Schema, outcomes: map<nat, Outcome>): Table
    requires forall d :: d in ds ==> d.tag in outcomes
  {
    if ds == [] then t
    else
      var d, before := ds[|ds| - 1], AfterAll(t, ds[..|ds| - 1], schema, outcomes);
      if IsHandled(d, schema) then Sent(before, d.content.value.job, outcomes[d.tag]) else before
  }

  lemma NothingHandled(t: Table, schema: Schema, outcomes: map<nat, Outcome>)
    ensures Handled([], schema) == [] && AfterAll(t, [], schema, outcomes) == t
  {
  }

  lemma OneMore(t: Table, ds: seq<Delivery>, n: nat, schema: Schema, outcomes: map<nat, Outcome>)
    requires n < |ds| && forall d :: d in ds ==> d.tag in outcomes
    ensures Handled(ds[..n + 1], schema) ==
            Handled(ds[..n], schema) + if IsHandled(ds[n], schema) then [ds[n]] else []
    ensures var before := AfterAll(t, ds[..n], schema, outcomes);
            AfterAll(t, ds[..n + 1], schema, outcomes) ==
            if IsHandled(ds[n], schema) then Sent(before, ds[n].content.value.job, outcomes[ds[n].tag]) else before
  {
    assert ds[..n + 1][..n] == ds[..n];
  }

  /** How many messages come before the first that is not JSON. */
  function Readable(ds: seq<Delivery>): (n: nat)
    ensures n <= |ds|
    ensures forall i :: 0 <= i < n ==> ds[i].content.Some?
    ensures n < |ds| ==> ds[n].content.None?
  {
    if ds == [] || ds[0].content.None? then 0 else 1 + Readable(ds[1..])
  }

  class Worker {
    const channel: Channel
    const table: JobsTable
    const schema: Schema
    ghost var handled: seq<Delivery>

    constructor (channel: Channel, table: JobsTable, schema: Schema)
      ensures this.channel == channel && this.table == table && this.schema == schema && handled == []
    {
      this.channel, this.table, this.schema, handled := channel, table, schema, [];
    }

    /** None stands for a thrown error. */
    method ValidateMessage(m: Message, accepted: bool) returns (r: Option<Option<Message>>)
      ensures r == if schema != Usable then None else Some(if accepted then Some(m) else None)
    {
      if schema == Missing || schema == Broken { return None; }
      r := Some(if accepted then Some(m) else None);
    }

    /** Whatever happens to a JSON message, it is acknowledged once, after the handler is through with
        it. A message that is not JSON throws before, and stays out. */
    method MessageHandler(msg: Option<Delivery>, o: Outcome) returns (thrown: bool)
      requires table.Valid() && (msg.Some? ==> channel.unacked == [msg.value])
      modifies `handled, channel, table`rows
      ensures table.Valid() && channel.pending == old(channel.pending) && channel.All() == old(channel.All())
      ensures thrown <==> msg.Some? && msg.value.content.None?
      ensures if msg.Some? && !thrown then channel.unacked == [] && channel.acked == old(channel.acked) + [msg.value]
              else channel.unacked == old(channel.unacked) && channel.acked == old(channel.acked)
      ensures if msg.Some? && schema == Usable && msg.value.accepted && msg.value.content.Some?
                 && msg.value.content.value != Falsy
              then handled == old(handled) + [msg.value]
                   && table.rows == Sent(old(table.rows), msg.value.content.value.job, o)
              else handled == old(handled) && table.rows == old(table.rows)
    {
      if msg.None? { return false; }
      if msg.value.content.None? { return true; }
      var validated := ValidateMessage(msg.value.content.value, msg.value.accepted);
      if validated.None? || validated.value.None? || validated.value.value.Falsy? {
        channel.Ack(msg.value);
        return false;
      }
      handled := handled + [msg.value];
      var _ := SendTransactions(table, validated.value.value.job, o);
      channel.Ack(msg.value);
      return false;
    }

    /** Consuming a queue: everything up to the first message that is not JSON is acknowledged, once
        and in order; exactly the valid messages among them are handled, once and in order. */
    method Consume(outcomes: map<nat, Outcome>)
      requires table.Valid() && channel.unacked == []
      requires forall d :: d in channel.pending ==> d.tag in outcomes
      modifies `handled, channel, table`rows
      ensures var queue, n := old(channel.pending), Readable(old(channel.pending));
              && channel.All() == old(channel.All())
              && channel.acked == old(channel.acked) + queue[..n]
              && |channel.unacked| == (if n < |queue| then 1 else 0)
              && handled == old(handled) + Handled(queue[..n], schema)
              && table.rows == AfterAll(old(table.rows), queue[..n], schema, outcomes)
    {
      hide AfterAll, Handled;
      ghost var queue, acked, done := channel.pending, channel.acked, 0;
      NothingHandled(table.rows, schema, outcomes);
      var stuck := false;
      while !stuck && channel.pending != []
        invariant table.Valid() && done <= |queue| && channel.All() == acked + queue
        invariant stuck ==> done < |queue| && queue[done].content.None? && channel.unacked == [queue[done]]
        invariant channel.pending == queue[if stuck then done + 1 else done..]
        invariant !stuck ==> channel.unacked == []
        invariant channel.acked == acked + queue[..done]
        invariant forall i :: 0 <= i < done ==> queue[i].content.Some?
        invariant handled == old(handled) + Handled(queue[..done], schema)
        invariant table.rows == AfterAll(old(table.rows), queue[..done], schema, outcomes)
        decreases |channel.pending|
      {
        var d := channel.Deliver();
        assert d == Some(queue[done]);
        OneMore(old(table.rows), queue, done, schema, outcomes);
        stuck := MessageHandler(d, outcomes[d.value.tag]);
        if !stuck { done := done + 1; }
      }
    }
  }

  // ----- what the queue promises ----------------------------------------------------------------------------

  /** A queue is consumed to its end exactly when all its messages are JSON. */
  lemma {:induction false} ReadableIsAllIffJson(ds: seq<Delivery>)
    ensures Readable(ds) == |ds| <==> forall d :: d in ds ==> d.content.Some?
  {
    forall i | 0 <= i < |ds| ensures ds[i] in ds {}
  }

  /** No message is handled twice, none that is not valid, and every valid one is. */
  lemma {:induction false} HandledOnce(ds: seq<Delivery>, schema: Schema, d: Delivery)
    ensures multiset(Handled(ds, schema))[d] == if IsHandled(d, schema) then multiset(ds)[d] else 0
  {
    if ds != [] {
      var before, last := ds[..|ds| - 1], ds[|ds| - 1];
      HandledOnce(before, schema, d);
      assert multiset(ds) == multiset(before) + multiset{last} by { assert ds == before + [last]; }
      assert multiset(Handled(ds, schema)) ==
             multiset(Handled(before, schema)) + if IsHandled(last, schema) then multiset{last} else multiset{};
    }
  }

  /** The send wrote its job's status last, and successfully. */
  predicate WritesStatus(o: Outcome) {
    (o.sent.Ok? && o.publishError.None?) || !o.errorFails
  }

  ghost predicate StatusWritten(ds: seq<Delivery>, schema: Schema, outcomes: map<nat, Outcome>, job: nat)
    requires forall d :: d in ds ==> d.tag in outcomes
  {
    exists i :: 0 <= i < |ds| && IsHandled(ds[i], schema) && ds[i].content.value.job == job
                && WritesStatus(outcomes[ds[i].tag])
  }

  /** When the messages are acknowledged, a job that was `created` has left that status exactly when
      a valid message for it was among them and one of its status writes succeeded. */
  lemma {:induction false} LeavesCreatedIffStatusWritten(
    t: Table, ds: seq<Delivery>, schema: Schema, outcomes: map<nat, Outcome>, job: nat)
    requires forall d :: d in ds ==> d.tag in outcomes
    requires job in t && t[job].status == Created
    ensures var t' := AfterAll(t, ds, schema, outcomes);
            job in t' && (t'[job].status != Created <==> StatusWritten(ds, schema, outcomes, job))
  {
    if ds != [] {
      var before := ds[..|ds| - 1];
      LeavesCreatedIffStatusWritten(t, before, schema, outcomes, job);
      if StatusWritten(before, schema, outcomes, job) {
        var i :| 0 <= i < |before| && IsHandled(before[i], schema) && before[i].content.value.job == job
                 && WritesStatus(outcomes[before[i].tag]);
        assert ds[i] == before[i];
      }
      if StatusWritten(ds, schema, outcomes, job) {
        var i :| 0 <= i < |ds| && IsHandled(ds[i], schema) && ds[i].content.value.job == job
                 && WritesStatus(outcomes[ds[i].tag]);
        if i < |ds| - 1 { assert before[i] == ds[i]; }
      }
    }
  }
}
