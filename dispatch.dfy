/** What one call of `Sending.send` does for a launched sending, as a
    function of the recipients, the letter and the transport's answers:
    the `Event` rows it appends, the messages it hands to the transport,
    and the exception it lets out. */
module Dispatching {
  import opened Common
  import opened Recipients

  /** A message template (the `Maill` model): only what `send` reads. */
  datatype Maill = Maill(title: string, body: string)

  /** What the mail transport does with one message: accept it, or raise
      an exception whose `str()` is `text`. */
  datatype Reply = Accepted | Refused(text: string)

  datatype EventStatus = Failed | Succeeded

  /** An `Event` row: the attempt's status and server response, the
      recipient it targeted, the sending (`topic`, by primary key) and the
      owning company. The auto-filled timestamp is left out. */
  datatype Event = Event(status: EventStatus, response: string, email: Recipient, topic: nat, owner: Company)

  /** An `EmailMessage` handed to the transport: subject and body from the
      letter, the recipient as the only destination, and the company's
      address as the Reply-To header. */
  datatype Message = Message(subject: string, body: string, to: seq<string>, replyTo: string)

  /** The effect of one dispatch: the rows appended in order, the messages
      sent in order, and the text of the exception `send` re-raises, if any. */
  datatype Run = Run(log: seq<Event>, calls: seq<Message>, raised: Option<string>)

  /** `str()` of the `AttributeError` that `self.letter.title` raises when
      the sending has no letter. */
  const NoLetterText: string := "'NoneType' object has no attribute 'title'"

  /** How the attempt for one recipient ends: without a letter the message
      cannot even be built, so the transport is not reached. */
  function Answer(letter: Option<Maill>, reply: Reply): Reply
  {
    if letter.None? then Refused(NoLetterText) else reply
  }

  /** The messages the transport receives for one recipient: one, unless
      there is no letter to build it from. */
  function Delivery(r: Recipient, letter: Option<Maill>, owner: Company): seq<Message>
  {
    match letter
    case None => []
    case Some(l) => [Message(l.title, l.body, [r.email], owner.email)]
  }

  /** The row an attempt appends. */
  function Record(r: Recipient, answer: Reply, topic: nat, owner: Company): Event
  {
    match answer
    case Accepted => Event(Succeeded, "Success", r, topic, owner)
    case Refused(text) => Event(Failed, text, r, topic, owner)
  }

  /** The loop of `send` over `rs`, where `replies[i]` is what the
      transport would answer for `rs[i]`. A refusal is logged and then
      re-raised, which ends the loop. */
  function Dispatch(rs: seq<Recipient>, letter: Option<Maill>, replies: seq<Reply>, topic: nat, owner: Company): (run: Run)
    requires |replies| == |rs|
    decreases |rs|
  {
    if rs == [] then Run([], [], None)
    else
      var answer := Answer(letter, replies[0]);
      var e := Record(rs[0], answer, topic, owner);
      var sent := Delivery(rs[0], letter, owner);
      match answer
      case Refused(text) => Run([e], sent, Some(text))
      case Accepted =>
        var rest := Dispatch(rs[1..], letter, replies[1..], topic, owner);
        Run([e] + rest.log, sent + rest.calls, rest.raised)
  }

  /** Row i of a run is about recipient i of this sending and company,
      the run never logs more rows than there are recipients, and it logs a
      row for each of them when nothing is raised. */
  lemma {:induction false} DispatchTargets(rs: seq<Recipient>, letter: Option<Maill>, replies: seq<Reply>, topic: nat, owner: Company)
    requires |replies| == |rs|
    ensures var run := Dispatch(rs, letter, replies, topic, owner);
      |run.log| <= |rs| &&
      (forall i :: 0 <= i < |run.log| ==>
        run.log[i].email == rs[i] && run.log[i].topic == topic && run.log[i].owner == owner) &&
      (run.raised.None? ==> |run.log| == |rs|)
    decreases |rs|
  {
    if rs != [] {
      DispatchTargets(rs[1..], letter, replies[1..], topic, owner);
    }
  }

  /** The run from the i-th recipient on. */
  function Remaining(rs: seq<Recipient>, letter: Option<Maill>, replies: seq<Reply>, topic: nat, owner: Company, i: nat): (rest: Run)
    requires |replies| == |rs| && i <= |rs|
  {
    Dispatch(rs[i..], letter, replies[i..], topic, owner)
  }

  /** One turn of the loop: if a whole run is what has been logged and sent
      so far followed by the run from recipient i on, then after recipient
      i's attempt either the run is over (the attempt failed) or the same
      holds from recipient i + 1 on. */
  lemma DispatchStep(rs: seq<Recipient>, letter: Option<Maill>, replies: seq<Reply>, topic: nat, owner: Company,
                       i: nat, full: Run, done: seq<Event>, sent: seq<Message>)
    requires |replies| == |rs| && i < |rs|
    requires var rest := Remaining(rs, letter, replies, topic, owner, i);
      full.log == done + rest.log && full.calls == sent + rest.calls && full.raised == rest.raised
    ensures var answer := Answer(letter, replies[i]);
      var done', sent' := done + [Record(rs[i], answer, topic, owner)], sent + Delivery(rs[i], letter, owner);
      var next := Remaining(rs, letter, replies, topic, owner, i + 1);
      if answer.Refused? then full == Run(done', sent', Some(answer.text))
      else full.log == done' + next.log && full.calls == sent' + next.calls && full.raised == next.raised
  {
  }

  /** Every attempt succeeds exactly when `send` raises nothing, and then
      each recipient gets one "Success" row and one message, in order. */
  lemma {:induction false} AllAccepted(rs: seq<Recipient>, letter: Option<Maill>, replies: seq<Reply>, topic: nat, owner: Company)
    requires |replies| == |rs|
    ensures var run := Dispatch(rs, letter, replies, topic, owner);
      run.raised.None? <==> forall i :: 0 <= i < |rs| ==> Answer(letter, replies[i]) == Accepted
    ensures var run := Dispatch(rs, letter, replies, topic, owner);
      run.raised.None? ==>
        |run.log| == |rs| && |run.calls| == |rs| &&
        (forall i :: 0 <= i < |rs| ==> run.log[i] == Event(Succeeded, "Success", rs[i], topic, owner)) &&
        (forall i :: 0 <= i < |rs| ==> run.calls[i] == Message(letter.value.title, letter.value.body, [rs[i].email], owner.email))
    decreases |rs|
  {
    if rs != [] {
      AllAccepted(rs[1..], letter, replies[1..], topic, owner);
      if Answer(letter, replies[0]) == Accepted {
        var tail := replies[1..];
        assert forall i :: 1 <= i < |rs| ==> replies[i] == tail[i - 1];
      }
    }
  }

  /** When the k-th attempt is the first to fail, exactly k + 1 rows are
      appended: k "Success" rows, then a failed row carrying the error
      text, which `send` re-raises. Recipients after it get nothing. */
  lemma {:induction false} FirstRefusal(rs: seq<Recipient>, letter: Option<Maill>, replies: seq<Reply>, topic: nat, owner: Company, k: nat)
    requires |replies| == |rs| && k < |rs|
    requires forall j :: 0 <= j < k ==> Answer(letter, replies[j]) == Accepted
    requires Answer(letter, replies[k]).Refused?
    ensures var run := Dispatch(rs, letter, replies, topic, owner);
      |run.log| == k + 1 &&
      (forall j :: 0 <= j < k ==> run.log[j] == Event(Succeeded, "Success", rs[j], topic, owner)) &&
      run.log[k] == Event(Failed, Answer(letter, replies[k]).text, rs[k], topic, owner) &&
      run.raised == Some(Answer(letter, replies[k]).text)
    ensures var run := Dispatch(rs, letter, replies, topic, owner);
      |run.calls| == (if letter.None? then 0 else k + 1) &&
      (letter.Some? ==> forall j :: 0 <= j <= k ==>
        run.calls[j] == Message(letter.value.title, letter.value.body, [rs[j].email], owner.email))
    decreases k
  {
    if k > 0 {
      var tail := replies[1..];
      assert forall j :: 0 <= j < k - 1 ==> tail[j] == replies[j + 1];
      FirstRefusal(rs[1..], letter, tail, topic, owner, k - 1);
    }
  }

  /** Without a letter the first recipient gets one failed row, nothing is
      handed to the transport and the `AttributeError` propagates. */
  lemma MissingLetter(rs: seq<Recipient>, replies: seq<Reply>, topic: nat, owner: Company)
    requires |replies| == |rs| && rs != []
    ensures Dispatch(rs, None, replies, topic, owner)
      == Run([Event(Failed, NoLetterText, rs[0], topic, owner)], [], Some(NoLetterText))
  {
  }

  /** Only the last row of a run can be a failure, and it is one exactly
      when `send` raises, with the row's response as the error text. */
  lemma {:induction false} FailureIsLast(rs: seq<Recipient>, letter: Option<Maill>, replies: seq<Reply>, topic: nat, owner: Company)
    requires |replies| == |rs|
    ensures var run := Dispatch(rs, letter, replies, topic, owner);
      forall i :: 0 <= i < |run.log| - 1 ==> run.log[i].status == Succeeded
    ensures var run := Dispatch(rs, letter, replies, topic, owner);
      run.raised.Some? <==> run.log != [] && run.log[|run.log| - 1].status == Failed
    ensures var run := Dispatch(rs, letter, replies, topic, owner);
      run.raised.Some? ==> run.raised.value == run.log[|run.log| - 1].response
    decreases |rs|
  {
    if rs != [] && Answer(letter, replies[0]).Accepted? {
      FailureIsLast(rs[1..], letter, replies[1..], topic, owner);
    }
  }

  /** Over recipients with unique addresses, one run logs at most one row
      per address. */
  lemma OneRowPerRecipient(rs: seq<Recipient>, letter: Option<Maill>, replies: seq<Reply>, topic: nat, owner: Company)
    requires |replies| == |rs| && UniqueEmails(rs)
    ensures var log := Dispatch(rs, letter, replies, topic, owner).log;
      forall i, j :: 0 <= i < |log| && 0 <= j < |log| && i != j ==> log[i].email.email != log[j].email.email
  {
    var log := Dispatch(rs, letter, replies, topic, owner).log;
    DispatchTargets(rs, letter, replies, topic, owner);
    forall i, j | 0 <= i < |log| && 0 <= j < |log| && i != j
      ensures log[i].email.email != log[j].email.email
    {
      if j < i {
        assert rs[j].email != rs[i].email;
      }
    }
  }

  /** Nothing guards against sending twice: a second run after a partial
      failure starts again from the first recipient, so every recipient
      both runs reach before failing ends up with two "Success" rows. */
  lemma RetryRepeatsDeliveredPrefix(rs: seq<Recipient>, letter: Option<Maill>, first: seq<Reply>, second: seq<Reply>,
                                    topic: nat, owner: Company, k: nat, i: nat)
    requires |first| == |rs| && |second| == |rs| && i < k <= |rs|
    requires forall j :: 0 <= j < k ==> Answer(letter, first[j]) == Accepted
    requires forall j :: 0 <= j < k ==> Answer(letter, second[j]) == Accepted
    ensures var before := Dispatch(rs, letter, first, topic, owner).log;
      var both := before + Dispatch(rs, letter, second, topic, owner).log;
      i < |before| && |before| + i < |both| &&
      both[i] == Event(Succeeded, "Success", rs[i], topic, owner) &&
      both[|before| + i] == Event(Succeeded, "Success", rs[i], topic, owner)
  {
    var before := Dispatch(rs, letter, first, topic, owner).log;
    var after := Dispatch(rs, letter, second, topic, owner).log;
    SuccessfulPrefix(rs, letter, first, topic, owner, k);
    SuccessfulPrefix(rs, letter, second, topic, owner, k);
    assert (before + after)[|before| + i] == after[i];
  }

  /** The first k recipients each get a "Success" row when the first k
      attempts succeed. */
  lemma {:induction false} SuccessfulPrefix(rs: seq<Recipient>, letter: Option<Maill>, replies: seq<Reply>, topic: nat, owner: Company, k: nat)
    requires |replies| == |rs| && k <= |rs|
    requires forall j :: 0 <= j < k ==> Answer(letter, replies[j]) == Accepted
    ensures var log := Dispatch(rs, letter, replies, topic, owner).log;
      k <= |log| && forall j :: 0 <= j < k ==> log[j] == Event(Succeeded, "Success", rs[j], topic, owner)
    decreases k
  {
    if k > 0 {
      var tail := replies[1..];
      assert forall j :: 0 <= j < k - 1 ==> tail[j] == replies[j + 1];
      SuccessfulPrefix(rs[1..], letter, tail, topic, owner, k - 1);
    }
  }
}
