/** The `Sending` model: a mailing campaign whose `save` resolves the
    company and computes the first delivery time, and whose `send`
    dispatches the letter to every recipient while logging one `Event`
    per attempt. */
module Sendings {
  import opened Common
  import opened Recipients
  import opened Scheduling
  import opened Dispatching

  /** The columns a successful save writes that this model follows. The
      foreign key to the company is not nullable, and `scheduled_at` is
      always set by then. */
  datatype Row = Row(frequency: string, status: string, company: Company, scheduledAt: DateTime, letter: Option<Maill>)

  /** How `send` ends: the status gate returned early, every recipient
      was sent to, or an exception with the given text escaped. */
  datatype SendResult = Skipped | Sent | Raised(error: string)

  const Launched: string := "launched"

  /** `str()` of the `RelatedObjectDoesNotExist` that `self.company` raises
      when the sending has no company. */
  const NoCompanyText: string := "Sending has no company."

  /** `str()` of the `ValueError` that `self.recipient.all()` raises on a
      sending that has no primary key yet, that is, has never been saved
      (at that point `__str__` shows the id as `None` and the status as
      "launched"). */
  const UnsavedText: string :=
    "\"<Sending: Sending None - launched>\" needs to have a value for field \"id\" before this many-to-many relationship can be used."

  class Sending {
    /** The primary key, which each `Event` refers to as its topic. */
    const id: nat
    var frequency: string
    var status: string
    var company: Option<Company>
    var letter: Option<Maill>
    /** `self.recipient.all()`, in the order the database returns it. */
    var recipients: seq<Recipient>
    var scheduledAt: Option<DateTime>
    /** The row last written by a successful save, if any. */
    var stored: Option<Row>
    /** The `Event` rows whose topic is this sending, oldest first. */
    var events: seq<Event>

    /** Recipients have unique addresses, and whatever row a save has
        written carries a timezone-aware schedule. The in-memory fields may
        be edited after a save; nothing ties them to the row. */
    ghost predicate Valid()
      reads this
    {
      UniqueEmails(recipients) &&
      (stored.Some? ==> stored.value.scheduledAt.aware)
    }

    /** A sending built in memory and not yet saved. */
    constructor (id: nat, frequency: string, status: string, company: Option<Company>, letter: Option<Maill>,
                 recipients: seq<Recipient>, scheduledAt: Option<DateTime>)
      requires UniqueEmails(recipients)
      ensures Valid()
      ensures this.id == id && this.frequency == frequency && this.status == status
      ensures this.company == company && this.letter == letter && this.recipients == recipients
      ensures this.scheduledAt == scheduledAt && stored == None && events == []
    {
      this.id := id;
      this.frequency := frequency;
      this.status := status;
      this.company := company;
      this.letter := letter;
      this.recipients := recipients;
      this.scheduledAt := scheduledAt;
      stored := None;
      events := [];
    }

    /** `save(...)` at time `now`, where `user` is the `user` keyword if
        one is passed. The company is adopted first, so a save that then
        fails still leaves it set in memory, and `scheduled_at` is computed
        before the framework's `Model.save` can reject a leftover keyword;
        only a save that succeeds writes the row. */
    method Save(user: UserArgument, now: int) returns (r: SaveResult)
      requires Valid()
      modifies this`company, this`scheduledAt, this`stored
      ensures Valid()
      ensures r == SaveOutcome(old(company), user, old(scheduledAt), frequency, now)
      ensures old(company).Some? ==> company == old(company)
      ensures old(company).None? && user.Given? && user.user.Some? ==> company == Some(user.user.value.company)
      ensures old(company).None? && !(user.Given? && user.user.Some?) ==> company == None
      ensures r.MissingCompany? || r.NullUser? || r.BadFrequency? ==> scheduledAt == old(scheduledAt)
      ensures r.Saved? || r.UnexpectedUser? ==> scheduledAt == Schedule(old(scheduledAt), frequency, now)
      ensures r == Saved ==> stored == Some(Row(frequency, status, company.value, scheduledAt.value, letter))
      ensures r != Saved ==> stored == old(stored)
    {
      var leftover := user;
      if company.None? && user.Given? {
        if user.user.None? {
          return NullUser;
        }
        company := Some(user.user.value.company);
        leftover := Absent;
      } else if company.None? {
        return MissingCompany;
      }

      if scheduledAt.None? {
        if frequency == "daily" {
          scheduledAt := Some(DateTime(now + Day, true));
        } else if frequency == "weekly" {
          scheduledAt := Some(DateTime(now + Week, true));
        } else if frequency == "monthly" {
          scheduledAt := Some(DateTime(now + 30 * Day, true));
        } else {
          return BadFrequency;
        }
      } else if !scheduledAt.value.aware {
        scheduledAt := Some(MakeAware(scheduledAt.value));
      }

      if leftover.Given? {
        return UnexpectedUser;
      }
      stored := Some(Row(frequency, status, company.value, scheduledAt.value, letter));
      r := Saved;
    }

    /** `send()`, where `replies[i]` is what the transport answers for the
        i-th recipient. Returns how it ended and the messages handed to the
        transport. Only `events` changes: the status is read, never written.
        Before the loop, outside the `try`, the company is looked up and the
        recipients are queried, which needs a saved sending. */
    method Send(replies: seq<Reply>) returns (r: SendResult, sent: seq<Message>)
      requires Valid()
      requires |replies| == |recipients|
      modifies this`events
      ensures Valid()
      ensures status != Launched ==> r == Skipped && sent == [] && events == old(events)
      ensures status == Launched && company.None? ==>
        r == Raised(NoCompanyText) && sent == [] && events == old(events)
      ensures status == Launched && company.Some? && stored.None? ==>
        r == Raised(UnsavedText) && sent == [] && events == old(events)
      ensures status == Launched && company.Some? && stored.Some? ==>
        var run := Dispatch(recipients, letter, replies, id, company.value);
        events == old(events) + run.log && sent == run.calls &&
        r == (if run.raised.Some? then Raised(run.raised.value) else Sent)
    {
      r, sent := Skipped, [];
      if status != Launched {
        return;
      }
      if company.None? {
        return Raised(NoCompanyText), sent;
      }
      if stored.None? {
        return Raised(UnsavedText), sent;
      }

      var owner := company.value;
      ghost var full := Dispatch(recipients, letter, replies, id, owner);
      ghost var done: seq<Event> := [];
      var i := 0;
      while i < |recipients|
        invariant 0 <= i <= |recipients|
        invariant events == old(events) + done
        invariant var rest := Remaining(recipients, letter, replies, id, owner, i);
          full.log == done + rest.log && full.calls == sent + rest.calls && full.raised == rest.raised
      {
        var recipient := recipients[i];
        DispatchStep(recipients, letter, replies, id, owner, i, full, done, sent);
        var answer := Answer(letter, replies[i]);
        sent := sent + Delivery(recipient, letter, owner);
        var e := Record(recipient, answer, id, owner);
        events, done := events + [e], done + [e];
        if answer.Refused? {
          return Raised(answer.text), sent;
        }
        i := i + 1;
      }
      r := Sent;
    }
  }
}
