/**
  The conversation record store (`NeonDB`). The three tables the bot writes (conversations,
  messages, failed_validations) are sequences of rows in insertion order, and the database
  clock `NOW()` is a number of seconds the caller advances. "Latest" means latest created:
  rows are created at non-decreasing times, and among rows created in the same second the
  one inserted last is taken.
*/
module NeonDb {
  import opened Wrappers

  // ---------------------------------------------------------------------------
  // Rows

  /** A row of `conversations`: serial id, phone number, creation and completion times,
      and its text columns (current_step, status, notes, name, dni_ruc, ...), a column
      being absent while it is NULL. */
  datatype Conversation = Conversation(
    id: nat,
    phone: string,
    createdAt: nat,
    completedAt: Option<nat>,
    columns: map<string, string>)

  /** A row of `messages`. */
  datatype MessageRow = MessageRow(
    conversationId: Option<nat>,
    phone: string,
    messageType: string,
    contentType: string,
    content: string,
    intent: Option<string>,
    timestamp: nat)

  /** A row of `failed_validations`. */
  datatype FailedValidation = FailedValidation(
    phone: string,
    step: string,
    userInput: string,
    expectedFormat: string,
    retryCount: nat,
    timestamp: nat)

  /** How long a failed validation counts towards the next retry number: five minutes. */
  const RetryWindow: nat := 300

  /** A conversation `get_or_create_conversation` may return: its status is set and is
      not COMPLETED (a NULL status fails the SQL test too). */
  predicate IsOpen(c: Conversation) {
    "status" in c.columns && c.columns["status"] != "COMPLETED"
  }

  // ---------------------------------------------------------------------------
  // Queries

  /** The index of the latest row for `phone` satisfying `p`. */
  function LatestWhere(rows: seq<Conversation>, phone: string, p: Conversation -> bool): (r: Option<nat>)
    ensures r.Some? ==> r.value < |rows| && rows[r.value].phone == phone && p(rows[r.value])
    ensures r.Some? ==> forall j :: r.value < j < |rows| ==> !(rows[j].phone == phone && p(rows[j]))
    ensures r.None? <==> forall j :: 0 <= j < |rows| ==> !(rows[j].phone == phone && p(rows[j]))
  {
    if rows == [] then None
    else
      var last := |rows| - 1;
      if rows[last].phone == phone && p(rows[last]) then Some(last)
      else LatestWhere(rows[..last], phone, p)
  }

  /** `SELECT * ... WHERE phone_number = %s AND status != 'COMPLETED' ORDER BY created_at
      DESC LIMIT 1` */
  function LatestOpen(rows: seq<Conversation>, phone: string): (r: Option<nat>)
    ensures r.Some? ==> r.value < |rows| && rows[r.value].phone == phone && IsOpen(rows[r.value])
    ensures r.Some? ==> forall j :: r.value < j < |rows| ==> !(rows[j].phone == phone && IsOpen(rows[j]))
    ensures r.None? <==> forall j :: 0 <= j < |rows| ==> !(rows[j].phone == phone && IsOpen(rows[j]))
  {
    LatestWhere(rows, phone, IsOpen)
  }

  /** `SELECT id ... WHERE phone_number = %s ORDER BY created_at DESC LIMIT 1` */
  function Latest(rows: seq<Conversation>, phone: string): (r: Option<nat>)
    ensures r.Some? ==> r.value < |rows| && rows[r.value].phone == phone
    ensures r.Some? ==> forall j :: r.value < j < |rows| ==> rows[j].phone != phone
    ensures r.None? <==> forall j :: 0 <= j < |rows| ==> rows[j].phone != phone
  {
    LatestWhere(rows, phone, _ => true)
  }

  /** The index of the latest failed validation of `step` by `phone` less than five
      minutes before `now`. */
  function RecentFailure(rows: seq<FailedValidation>, phone: string, step: string, now: nat): (r: Option<nat>)
    ensures r.Some? ==>
      r.value < |rows| && rows[r.value].phone == phone && rows[r.value].step == step
      && rows[r.value].timestamp + RetryWindow > now
    ensures r.Some? ==> forall j :: r.value < j < |rows| ==>
      !(rows[j].phone == phone && rows[j].step == step && rows[j].timestamp + RetryWindow > now)
    ensures r.None? <==> forall j :: 0 <= j < |rows| ==>
      !(rows[j].phone == phone && rows[j].step == step && rows[j].timestamp + RetryWindow > now)
  {
    if rows == [] then None
    else
      var last := |rows| - 1;
      if rows[last].phone == phone && rows[last].step == step && rows[last].timestamp + RetryWindow > now
      then Some(last)
      else RecentFailure(rows[..last], phone, step, now)
  }

  /** The retry number `log_failed_validation` assigns at time `now`. */
  function NextRetry(rows: seq<FailedValidation>, phone: string, step: string, now: nat): (r: nat)
    ensures r >= 1
    ensures RecentFailure(rows, phone, step, now).None? ==> r == 1
    ensures RecentFailure(rows, phone, step, now).Some? ==>
      r == rows[RecentFailure(rows, phone, step, now).value].retryCount + 1
  {
    match RecentFailure(rows, phone, step, now)
    case None => 1
    case Some(i) => rows[i].retryCount + 1
  }

  // ---------------------------------------------------------------------------
  // Updates

  /** The non-None keyword arguments, in order, as (column, value) assignments. */
  function Present(kwargs: seq<(string, Option<string>)>): (r: seq<(string, string)>)
    ensures |r| <= |kwargs|
  {
    if kwargs == [] then []
    else
      var last := kwargs[|kwargs| - 1];
      Present(kwargs[..|kwargs| - 1]) + (if last.1.Some? then [(last.0, last.1.value)] else [])
  }

  /** The columns after the `SET` assignments. */
  function Assign(columns: map<string, string>, assignments: seq<(string, string)>): map<string, string>
  {
    if assignments == [] then columns
    else
      var last := assignments[|assignments| - 1];
      Assign(columns, assignments[..|assignments| - 1])[last.0 := last.1]
  }

  /** The three `UPDATE`s of the store. */
  datatype Change =
    | Step(step: string, assignments: seq<(string, string)>)  // update_conversation_step
    | Complete(at: nat)                                     // complete_conversation
    | Handoff(reason: string)                               // handoff_to_human

  /** A row after a change. */
  function Apply(c: Conversation, change: Change): Conversation {
    match change
    case Step(step, assignments) => c.(columns := Assign(c.columns["current_step" := step], assignments))
    case Complete(at) =>
      c.(columns := c.columns["status" := "COMPLETED"]["current_step" := "FINISHED"], completedAt := Some(at))
    case Handoff(reason) =>
      c.(columns := c.columns["status" := "HUMAN_HANDOFF"]["current_step" := "EN_ATENCION_HUMANA"]["notes" := reason])
  }

  /** `UPDATE conversations SET ... WHERE phone_number = %s`: the change applied to every
      row of the phone number, completed or not. */
  function UpdateWhere(rows: seq<Conversation>, phone: string, change: Change): (r: seq<Conversation>)
    ensures |r| == |rows|
    ensures forall i :: 0 <= i < |rows| ==> r[i] == if rows[i].phone == phone then Apply(rows[i], change) else rows[i]
  {
    seq(|rows|, i requires 0 <= i < |rows| => if rows[i].phone == phone then Apply(rows[i], change) else rows[i])
  }

  /** Keyword arguments Python accepts and SQL can assign: distinct names, none of them a
      parameter of the method, and `current_step`, which is already assigned, only as
      None (a None argument is dropped before the query is built). The typed columns
      `id`, `created_at` and `completed_at` are not text columns of this model, so they
      too may appear only as None. */
  predicate ValidKwargs(kwargs: seq<(string, Option<string>)>) {
    (forall i, j :: 0 <= i < j < |kwargs| ==> kwargs[i].0 != kwargs[j].0)
    && (forall i :: 0 <= i < |kwargs| ==> kwargs[i].0 !in {"phone_number", "step", "self"})
    && forall i :: 0 <= i < |kwargs| && IsReservedColumn(kwargs[i].0) ==> kwargs[i].1.None?
  }

  /** The columns an `update_conversation_step` keyword may not assign in this model:
      `current_step`, which the method sets itself, and the typed columns. */
  predicate IsReservedColumn(name: string) {
    name == "current_step" || name == "id" || name == "created_at" || name == "completed_at"
  }

  /** Serial ids, creation times in order and not after `now`, and every conversation
      with a step and a status. */
  ghost predicate ConversationTable(rows: seq<Conversation>, now: nat) {
    (forall i :: 0 <= i < |rows| ==>
      rows[i].id == i + 1 && rows[i].createdAt <= now
      && "current_step" in rows[i].columns && "status" in rows[i].columns)
    && forall i, j :: 0 <= i < j < |rows| ==> rows[i].createdAt <= rows[j].createdAt
  }

  /** Failed validations logged in time order, not after `now`, with a retry number of at
      least 1. */
  ghost predicate FailureTable(rows: seq<FailedValidation>, now: nat) {
    (forall i :: 0 <= i < |rows| ==> rows[i].timestamp <= now && rows[i].retryCount >= 1)
    && forall i, j :: 0 <= i < j < |rows| ==> rows[i].timestamp <= rows[j].timestamp
  }

  /** An update keeps the conversations table well formed. */
  lemma UpdateKeepsTable(rows: seq<Conversation>, now: nat, phone: string, change: Change)
    requires ConversationTable(rows, now)
    ensures ConversationTable(UpdateWhere(rows, phone, change), now)
  {
    var rows' := UpdateWhere(rows, phone, change);
    forall i | 0 <= i < |rows'|
      ensures rows'[i].id == i + 1 && rows'[i].createdAt <= now
      ensures "current_step" in rows'[i].columns && "status" in rows'[i].columns
    {
      if rows[i].phone == phone && change.Step? {
        AssignKeepsKeys(rows[i].columns["current_step" := change.step], change.assignments);
      }
    }
  }

  // ---------------------------------------------------------------------------
  // The store

  class NeonDB {
    var conversations: seq<Conversation>
    var messages: seq<MessageRow>
    var failedValidations: seq<FailedValidation>
    /** `NOW()`, in seconds. */
    var now: nat

    /** The tables are well formed at the current time. */
    ghost predicate Valid()
      reads this
    {
      ConversationTable(conversations, now) && FailureTable(failedValidations, now)
    }

    /** Empty tables, with the clock at `start`. */
    constructor(start: nat)
      ensures Valid()
      ensures conversations == [] && messages == [] && failedValidations == [] && now == start
    {
      conversations := [];
      messages := [];
      failedValidations := [];
      now := start;
    }

    /** Time passes. */
    method AdvanceClock(seconds: nat)
      requires Valid()
      modifies this
      ensures Valid()
      ensures now == old(now) + seconds
      ensures conversations == old(conversations) && messages == old(messages)
      ensures failedValidations == old(failedValidations)
    {
      now := now + seconds;
    }

    /** `get_or_create_conversation`: the latest open conversation of the phone number,
        with nothing written; if there is none, a new START / IN_PROGRESS conversation,
        appended. */
    method GetOrCreateConversation(phone: string) returns (conversation: Conversation)
      requires Valid()
      modifies this
      ensures Valid()
      ensures old(LatestOpen(conversations, phone)).Some? ==>
        conversations == old(conversations)
        && conversation == old(conversations)[old(LatestOpen(conversations, phone)).value]
      ensures old(LatestOpen(conversations, phone)).None? ==>
        conversations == old(conversations) + [conversation]
        && conversation == Conversation(|old(conversations)| + 1, phone, now, None,
             map["current_step" := "START", "status" := "IN_PROGRESS"])
      ensures IsOpen(conversation) && conversation.phone == phone
      ensures messages == old(messages) && failedValidations == old(failedValidations) && now == old(now)
    {
      var existing := LatestOpen(conversations, phone);
      if existing.Some? {
        return conversations[existing.value];
      }
      conversation := Conversation(|conversations| + 1, phone, now, None,
        map["current_step" := "START", "status" := "IN_PROGRESS"]);
      conversations := conversations + [conversation];
    }

    /** `update_conversation_step`: builds the assignment list (current_step, then each
        keyword argument that is not None) and applies it to every row of the phone
        number. */
    method UpdateConversationStep(phone: string, step: string, kwargs: seq<(string, Option<string>)>)
      requires Valid() && ValidKwargs(kwargs)
      modifies this
      ensures Valid()
      ensures conversations == UpdateWhere(old(conversations), phone, Step(step, Present(kwargs)))
      ensures messages == old(messages) && failedValidations == old(failedValidations) && now == old(now)
    {
      var assignments: seq<(string, string)> := [];
      for i := 0 to |kwargs|
        invariant assignments == Present(kwargs[..i])
      {
        assert kwargs[..i + 1][..i] == kwargs[..i];
        if kwargs[i].1.Some? {
          assignments := assignments + [(kwargs[i].0, kwargs[i].1.value)];
        }
      }
      assert kwargs[..|kwargs|] == kwargs;
      UpdateKeepsTable(conversations, now, phone, Step(step, assignments));
      conversations := UpdateWhere(conversations, phone, Step(step, assignments));
    }

    /** `complete_conversation`: every row of the phone number becomes COMPLETED at step
        FINISHED, completed now. */
    method CompleteConversation(phone: string)
      requires Valid()
      modifies this
      ensures Valid()
      ensures conversations == UpdateWhere(old(conversations), phone, Complete(old(now)))
      ensures messages == old(messages) && failedValidations == old(failedValidations) && now == old(now)
    {
      UpdateKeepsTable(conversations, now, phone, Complete(now));
      conversations := UpdateWhere(conversations, phone, Complete(now));
    }

    /** `handoff_to_human`: every row of the phone number goes to HUMAN_HANDOFF at step
        EN_ATENCION_HUMANA, with the reason in its notes. */
    method HandoffToHuman(phone: string, reason: string := "Cliente solicitó hablar con humano")
      requires Valid()
      modifies this
      ensures Valid()
      ensures conversations == UpdateWhere(old(conversations), phone, Handoff(reason))
      ensures messages == old(messages) && failedValidations == old(failedValidations) && now == old(now)
    {
      UpdateKeepsTable(conversations, now, phone, Handoff(reason));
      conversations := UpdateWhere(conversations, phone, Handoff(reason));
    }

    /** `log_message`: appends the message, attached to the latest conversation of the
        phone number (None when it has none). A database error (`fault`) is logged and
        swallowed: nothing is written and nothing is raised. */
    method LogMessage(phone: string, messageType: string, content: string, contentType: string := "text",
                      intent: Option<string> := None, fault: bool := false)
      requires Valid()
      modifies this
      ensures Valid()
      ensures !fault ==> messages == old(messages) + [MessageRow(
        match Latest(old(conversations), phone)
          case None => None
          case Some(i) => Some(old(conversations)[i].id),
        phone, messageType, contentType, content, intent, old(now))]
      ensures fault ==> messages == old(messages)
      ensures conversations == old(conversations) && failedValidations == old(failedValidations) && now == old(now)
    {
      if fault {
        return;
      }
      var latest := Latest(conversations, phone);
      var conversationId := if latest.Some? then Some(conversations[latest.value].id) else None;
      messages := messages + [MessageRow(conversationId, phone, messageType, contentType, content, intent, now)];
    }

    /** `log_failed_validation`: the retry number is one more than that of the latest
        failure of the same step by the same phone number in the last five minutes, or 1;
        the failure is appended with it. */
    method LogFailedValidation(phone: string, step: string, userInput: string, expectedFormat: string)
      returns (retryCount: nat)
      requires Valid()
      modifies this
      ensures Valid()
      ensures retryCount == NextRetry(old(failedValidations), phone, step, old(now))
      ensures failedValidations == old(failedValidations)
        + [FailedValidation(phone, step, userInput, expectedFormat, retryCount, old(now))]
      ensures conversations == old(conversations) && messages == old(messages) && now == old(now)
    {
      var recent := RecentFailure(failedValidations, phone, step, now);
      if recent.Some? {
        retryCount := failedValidations[recent.value].retryCount + 1;
      } else {
        retryCount := 1;
      }
      failedValidations := failedValidations + [FailedValidation(phone, step, userInput, expectedFormat, retryCount, now)];
    }
  }

  // ---------------------------------------------------------------------------
  // Properties

  /** Assignments add columns and never remove one. */
  lemma {:induction false} AssignKeepsKeys(columns: map<string, string>, assignments: seq<(string, string)>)
    ensures columns.Keys <= Assign(columns, assignments).Keys
  {
    if assignments != [] {
      AssignKeepsKeys(columns, assignments[..|assignments| - 1]);
    }
  }

  /** The last keyword argument is applied after all the others, if it has a value. */
  lemma LastKwargApplied(columns: map<string, string>, kwargs: seq<(string, Option<string>)>)
    requires kwargs != []
    ensures var last := kwargs[|kwargs| - 1];
      var before := Assign(columns, Present(kwargs[..|kwargs| - 1]));
      Assign(columns, Present(kwargs)) == if last.1.Some? then before[last.0 := last.1.value] else before
  {
    var n := |kwargs| - 1;
    var before := Present(kwargs[..n]);
    if kwargs[n].1.Some? {
      var extended := before + [(kwargs[n].0, kwargs[n].1.value)];
      assert Present(kwargs) == extended;
      assert extended[..|extended| - 1] == before;
    } else {
      assert Present(kwargs) == before + [];
      assert before + [] == before;
    }
  }

  /** A keyword argument given a value is assigned it: no later argument names the same
      column. */
  lemma {:induction false} KwargAssigned(columns: map<string, string>, kwargs: seq<(string, Option<string>)>, i: nat)
    requires forall i, j :: 0 <= i < j < |kwargs| ==> kwargs[i].0 != kwargs[j].0
    requires i < |kwargs| && kwargs[i].1.Some?
    ensures kwargs[i].0 in Assign(columns, Present(kwargs))
    ensures Assign(columns, Present(kwargs))[kwargs[i].0] == kwargs[i].1.value
  {
    var n := |kwargs| - 1;
    LastKwargApplied(columns, kwargs);
    if i < n {
      var init := kwargs[..n];
      assert init[i] == kwargs[i];
      KwargAssigned(columns, init, i);
    }
  }

  /** A column no keyword argument with a value names keeps whatever it held. */
  lemma {:induction false} ColumnKept(columns: map<string, string>, kwargs: seq<(string, Option<string>)>, k: string)
    requires forall i :: 0 <= i < |kwargs| && kwargs[i].1.Some? ==> kwargs[i].0 != k
    ensures k in Assign(columns, Present(kwargs)) <==> k in columns
    ensures k in columns ==> Assign(columns, Present(kwargs))[k] == columns[k]
  {
    if kwargs != [] {
      var n := |kwargs| - 1;
      var init := kwargs[..n];
      assert forall i :: 0 <= i < n ==> init[i] == kwargs[i];
      ColumnKept(columns, init, k);
      LastKwargApplied(columns, kwargs);
    }
  }

  /** Each keyword argument given a value is assigned that value; a column no such
      argument names keeps whatever it held (or stays NULL). */
  lemma KwargsApplied(columns: map<string, string>, kwargs: seq<(string, Option<string>)>)
    requires forall i, j :: 0 <= i < j < |kwargs| ==> kwargs[i].0 != kwargs[j].0
    ensures forall i :: 0 <= i < |kwargs| && kwargs[i].1.Some? ==>
      kwargs[i].0 in Assign(columns, Present(kwargs)) && Assign(columns, Present(kwargs))[kwargs[i].0] == kwargs[i].1.value
    ensures forall k :: (forall i :: 0 <= i < |kwargs| && kwargs[i].1.Some? ==> kwargs[i].0 != k) ==>
      (k in Assign(columns, Present(kwargs)) <==> k in columns)
      && (k in columns ==> Assign(columns, Present(kwargs))[k] == columns[k])
  {
    forall i | 0 <= i < |kwargs| && kwargs[i].1.Some?
      ensures kwargs[i].0 in Assign(columns, Present(kwargs))
      ensures Assign(columns, Present(kwargs))[kwargs[i].0] == kwargs[i].1.value
    {
      KwargAssigned(columns, kwargs, i);
    }
    forall k | forall i :: 0 <= i < |kwargs| && kwargs[i].1.Some? ==> kwargs[i].0 != k
      ensures k in Assign(columns, Present(kwargs)) <==> k in columns
      ensures k in columns ==> Assign(columns, Present(kwargs))[k] == columns[k]
    {
      ColumnKept(columns, kwargs, k);
    }
  }

  /** `update_conversation_step` sets current_step and every keyword field given a
      value. */
  lemma StepSetsGiven(c: Conversation, step: string, kwargs: seq<(string, Option<string>)>)
    requires ValidKwargs(kwargs)
    ensures "current_step" in Apply(c, Step(step, Present(kwargs))).columns
    ensures Apply(c, Step(step, Present(kwargs))).columns["current_step"] == step
    ensures forall i :: 0 <= i < |kwargs| && kwargs[i].1.Some? ==>
      kwargs[i].0 in Apply(c, Step(step, Present(kwargs))).columns
      && Apply(c, Step(step, Present(kwargs))).columns[kwargs[i].0] == kwargs[i].1.value
  {
    var start := c.columns["current_step" := step];
    var after := Apply(c, Step(step, Present(kwargs))).columns;
    assert after == Assign(start, Present(kwargs));
    ColumnKept(start, kwargs, "current_step");
    forall i | 0 <= i < |kwargs| && kwargs[i].1.Some?
      ensures kwargs[i].0 in after && after[kwargs[i].0] == kwargs[i].1.value
    {
      KwargAssigned(start, kwargs, i);
    }
  }

  /** Fields passed as None and all other columns keep their values (or stay NULL), and
      the id, phone number and times of the row do not change. */
  lemma StepKeepsOthers(c: Conversation, step: string, kwargs: seq<(string, Option<string>)>, k: string)
    requires ValidKwargs(kwargs)
    requires k != "current_step"
    requires forall i :: 0 <= i < |kwargs| && kwargs[i].1.Some? ==> kwargs[i].0 != k
    ensures k in Apply(c, Step(step, Present(kwargs))).columns <==> k in c.columns
    ensures k in c.columns ==> Apply(c, Step(step, Present(kwargs))).columns[k] == c.columns[k]
    ensures Apply(c, Step(step, Present(kwargs))).(columns := c.columns) == c
  {
    var start := c.columns["current_step" := step];
    KwargsApplied(start, kwargs);
    assert Apply(c, Step(step, Present(kwargs))).columns == Assign(start, Present(kwargs));
  }

  /** In a well-formed table the open conversation `get_or_create_conversation` picks is
      one with the latest creation time among the open conversations of the phone number,
      and the conversation `log_message` links is one with the latest creation time among
      all of them: `ORDER BY created_at DESC LIMIT 1`. */
  lemma LatestIsNewest(rows: seq<Conversation>, now: nat, phone: string)
    requires ConversationTable(rows, now)
    ensures LatestOpen(rows, phone).Some? ==> forall j :: 0 <= j < |rows| && rows[j].phone == phone && IsOpen(rows[j]) ==>
      rows[j].createdAt <= rows[LatestOpen(rows, phone).value].createdAt
    ensures Latest(rows, phone).Some? ==> forall j :: 0 <= j < |rows| && rows[j].phone == phone ==>
      rows[j].createdAt <= rows[Latest(rows, phone).value].createdAt
  {
  }

  /** In a well-formed log the failure `log_failed_validation` counts from is one with the
      latest timestamp among the failures of the phone number and step inside the window:
      `ORDER BY timestamp DESC LIMIT 1`. */
  lemma RecentFailureIsNewest(rows: seq<FailedValidation>, now: nat, phone: string, step: string)
    requires FailureTable(rows, now)
    ensures RecentFailure(rows, phone, step, now).Some? ==>
      forall j :: 0 <= j < |rows| && rows[j].phone == phone && rows[j].step == step && rows[j].timestamp + RetryWindow > now ==>
        rows[j].timestamp <= rows[RecentFailure(rows, phone, step, now).value].timestamp
  {
  }

  /** Two lookups of the latest matching row agree when the rows keep their phone numbers
      and the tests agree on the rows of the phone number. */
  lemma LatestWhereAgree(rows: seq<Conversation>, rows': seq<Conversation>, phone: string,
                         p: Conversation -> bool, p': Conversation -> bool)
    requires |rows'| == |rows|
    requires forall j :: 0 <= j < |rows| ==> rows'[j].phone == rows[j].phone
    requires forall j :: 0 <= j < |rows| && rows[j].phone == phone ==> p'(rows'[j]) == p(rows[j])
    ensures LatestWhere(rows', phone, p') == LatestWhere(rows, phone, p)
  {
    var r, r' := LatestWhere(rows, phone, p), LatestWhere(rows', phone, p');
    if r.Some? && r'.Some? {
      assert !(r.value < r'.value) && !(r'.value < r.value);
    }
  }

  /** After `complete_conversation` the phone number has no open conversation, so the
      next `get_or_create_conversation` inserts a fresh START record. */
  lemma CompletedLeavesNoneOpen(rows: seq<Conversation>, phone: string, now: nat)
    ensures LatestOpen(UpdateWhere(rows, phone, Complete(now)), phone).None?
  {
    var rows' := UpdateWhere(rows, phone, Complete(now));
    forall j | 0 <= j < |rows'| && rows'[j].phone == phone
      ensures !IsOpen(rows'[j])
    {
    }
  }

  /** After `handoff_to_human` every row of the phone number is HUMAN_HANDOFF, which is not
      COMPLETED: `get_or_create_conversation` returns the latest of them, the one most
      recently created, and does not create a new one. */
  lemma HandoffKeepsLatest(rows: seq<Conversation>, phone: string, reason: string)
    ensures LatestOpen(UpdateWhere(rows, phone, Handoff(reason)), phone) == Latest(rows, phone)
    ensures Latest(rows, phone).Some? ==>
      UpdateWhere(rows, phone, Handoff(reason))[Latest(rows, phone).value].id == rows[Latest(rows, phone).value].id
  {
    LatestWhereAgree(rows, UpdateWhere(rows, phone, Handoff(reason)), phone, _ => true, IsOpen);
  }

  /** An update of one phone number's rows leaves the conversation `get_or_create_conversation` finds for any other number. */
  lemma OtherPhonesUnaffected(rows: seq<Conversation>, phone: string, other: string, change: Change)
    requires other != phone
    ensures LatestOpen(UpdateWhere(rows, phone, change), other) == LatestOpen(rows, other)
    ensures Latest(UpdateWhere(rows, phone, change), other) == Latest(rows, other)
  {
    var rows' := UpdateWhere(rows, phone, change);
    LatestWhereAgree(rows, rows', other, IsOpen, IsOpen);
    LatestWhereAgree(rows, rows', other, _ => true, _ => true);
  }

  /** A failure logged less than five minutes after the previous failure of the same step
      by the same number gets the next retry number. */
  lemma RetryWithinWindow(rows: seq<FailedValidation>, phone: string, step: string, userInput: string,
                          expectedFormat: string, now: nat, later: nat)
    requires now <= later < now + RetryWindow
    ensures NextRetry(rows + [FailedValidation(phone, step, userInput, expectedFormat, NextRetry(rows, phone, step, now), now)],
      phone, step, later) == NextRetry(rows, phone, step, now) + 1
  {
  }

  /** After five minutes without a failure of that step by that number, the retry number
      starts again at 1. */
  lemma RetryRestartsAfterWindow(rows: seq<FailedValidation>, phone: string, step: string, now: nat, later: nat)
    requires forall i :: 0 <= i < |rows| ==> rows[i].timestamp <= now
    requires later >= now + RetryWindow
    ensures NextRetry(rows, phone, step, later) == 1
  {
  }

  /** Failures of other steps or other numbers do not count. */
  lemma RetryPerPhoneAndStep(rows: seq<FailedValidation>, failure: FailedValidation, phone: string, step: string, now: nat)
    requires failure.phone != phone || failure.step != step
    ensures NextRetry(rows + [failure], phone, step, now) == NextRetry(rows, phone, step, now)
  {
    assert (rows + [failure])[..|rows|] == rows;
  }
}
