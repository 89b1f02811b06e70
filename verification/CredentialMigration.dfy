/** Moving generated credentials to their new email
    (internal/handler/credential_email_migrator.go): a saga of client actions on the Agent and one
    database update, with compensation. */
module CredentialMigration {
  import opened Base
  import opened InboundClients
  import opened ClientExpirations
  import opened ManagedClients
  import opened ClientSafety

  /** A row of user_inbound_configs; `credential` is absent when its JSON does not parse. */
  datatype Row = Row(username: string, tag: string, credential: Option<ClientFields>)

  type Rows = map<int, Row>

  // ---------------------------------------------------------------------------------------
  // Which rows
  // ---------------------------------------------------------------------------------------

  datatype Verdict = NoEmail | AlreadyNew | Legacy | Custom

  function NewEmail(row: Row): string {
    row.username + "__" + row.tag
  }

  function RawEmail(credential: ClientFields): string {
    if "email" in credential && credential["email"].Printed? then credential["email"].text else ""
  }

  function Classify(row: Row, registered: map<string, string>): Verdict {
    if row.credential.None? || RawEmail(row.credential.value) == "" then NoEmail
    else
      var email := RawEmail(row.credential.value);
      if email == NewEmail(row) then AlreadyNew
      else if email == row.username then Legacy
      else if row.username in registered && registered[row.username] != "" && email == registered[row.username] then Legacy
      else Custom
  }

  /** The row's email is the username or the email the user registered with, and is not the new form
      already. */
  predicate HasOldEmail(row: Row, registered: map<string, string>) {
    row.credential.Some? && "email" in row.credential.value && row.credential.value["email"].Printed?
    && var email := row.credential.value["email"].text;
       && email != "" && email != row.username + "__" + row.tag
       && (email == row.username || (row.username in registered && email == registered[row.username]))
  }

  /** What each verdict means; an email that is none of the three is the user's own. */
  lemma VerdictsMean(row: Row, registered: map<string, string>)
    ensures Classify(row, registered) == Legacy <==> HasOldEmail(row, registered)
    ensures Classify(row, registered) == AlreadyNew <==>
              row.credential.Some? && "email" in row.credential.value
              && row.credential.value["email"] == Printed(row.username + "__" + row.tag)
    ensures Classify(row, registered) == NoEmail <==>
              row.credential.None? || "email" !in row.credential.value
              || row.credential.value["email"] in {Null, Printed("")}
  {
    assert row.username + "__" + row.tag != "" by { assert |"__"| == 2; }
  }

  function Renamed(credential: ClientFields, row: Row): ClientFields {
    credential["email" := Printed(NewEmail(row))]
  }

  // ---------------------------------------------------------------------------------------
  // Calls on the Agent
  // ---------------------------------------------------------------------------------------

  predicate OccursAt(s: string, part: string, i: nat) {
    i + |part| <= |s| && s[i..i + |part|] == part
  }

  predicate Contains(s: string, part: string) {
    exists i: nat :: i <= |s| && OccursAt(s, part, i)
  }

  /** isInboundNotFoundErr */
  predicate SaysInboundNotFound(text: string) {
    Contains(text, "inbound") && Contains(text, "not found")
  }

  function NotFoundText(tag: string): string {
    "Inbound " + tag + " not found"
  }

  /** How one forwarded request ends: answered by the Agent, or answered by an error of the
      transport, before or after the Agent acted. `text` is the error text. */
  datatype Call =
    | Answered(now: Time, o: Outcomes, text: string)
    | LostReply(now: Time, o: Outcomes, text: string)
    | NotDelivered(text: string)

  datatype CallEnd = Acked | Failed(text: string)

  datatype Called = Called(agent: Store, end: CallEnd)

  ghost function Forwarded(agent: Store, q: ClientRequest, c: Call): Called {
    match c
    case NotDelivered(text) => Called(agent, Failed(text))
    case LostReply(now, o, text) => Called(Act(agent, q, now, o).store, Failed(text))
    case Answered(now, o, text) =>
      var end := Act(agent, q, now, o);
      Called(end.store, if end.reply.Done? then Acked
                        else if end.reply.InboundNotFound? then Failed(NotFoundText(q.tag)) else Failed(text))
  }

  function AddRequest(row: Row, credential: ClientFields): ClientRequest {
    ClientRequest(true, row.tag, credential, None)
  }

  function RemoveRequest(row: Row, credential: ClientFields): ClientRequest {
    ClientRequest(false, row.tag, credential, None)
  }

  // ---------------------------------------------------------------------------------------
  // The saga
  // ---------------------------------------------------------------------------------------

  datatype Calls = Calls(remove: Call, add: Call, rollback: Call, updated: bool, removeNew: Call, restore: Call)

  datatype Failure = LeaseDenied | Unparsable | OrphanUpdate | RemoveOld | AddNew | Update

  datatype Migrated = Migrated(agent: Store, credential: ClientFields, failure: Option<Failure>)

  /** migrateOne for a row whose credential parses: what becomes of the Agent and of the row. */
  ghost function Migrate(agent: Store, row: Row, former: ClientFields, k: Calls): Migrated {
    var renamed := Renamed(former, row);
    var removed := Forwarded(agent, RemoveRequest(row, former), k.remove);
    if removed.end.Failed? then
      if !SaysInboundNotFound(removed.end.text) then Migrated(removed.agent, former, Some(RemoveOld))
      else if k.updated then Migrated(removed.agent, renamed, None)
      else Migrated(removed.agent, former, Some(OrphanUpdate))
    else MigrateFrom(removed.agent, row, former, renamed, k)
  }

  /** The saga once the old client is removed. */
  ghost function MigrateFrom(agent: Store, row: Row, former: ClientFields, renamed: ClientFields, k: Calls): Migrated {
    var added := Forwarded(agent, AddRequest(row, renamed), k.add);
    if added.end.Failed? then
      Migrated(Forwarded(added.agent, AddRequest(row, former), k.rollback).agent, former, Some(AddNew))
    else if k.updated then Migrated(added.agent, renamed, None)
    else
      var withdrawn := Forwarded(added.agent, RemoveRequest(row, renamed), k.removeNew);
      if withdrawn.end.Failed? then Migrated(withdrawn.agent, former, Some(Update))
      else Migrated(Forwarded(withdrawn.agent, AddRequest(row, former), k.restore).agent, former, Some(Update))
  }

  /** The row has the new email exactly when success is reported. */
  lemma OutcomeOfRow(agent: Store, row: Row, former: ClientFields, k: Calls)
    ensures var m := Migrate(agent, row, former, k);
            m.credential == if m.failure.None? then Renamed(former, row) else former
  {
  }

  class Migrator {
    var agent: ChildManager
    var rows: Rows
    var done: bool

    constructor (agent: ChildManager, rows: Rows, done: bool)
      ensures this.agent == agent && this.rows == rows && this.done == done
    {
      this.agent, this.rows, this.done := agent, rows, done;
    }

    method Forward(q: ClientRequest) returns (end: CallEnd, ghost c: Call)
      requires SoundToo(agent.Value())
      modifies agent
      ensures SoundToo(agent.Value())
      ensures Called(agent.Value(), end) == Forwarded(old(agent.Value()), q, c)
    {
      var delivered, answered: bool := *, *;
      var text: string := *;
      if !delivered {
        return Failed(text), NotDelivered(text);
      }
      var now: Time := *;
      ghost var before := agent.Value();
      var reply, o := agent.ManageClient(q, now);
      ActIsSound(before, q, now, o);
      if !answered {
        return Failed(text), LostReply(now, o, text);
      }
      c := Answered(now, o, text);
      end := if reply.Done? then Acked else if reply.InboundNotFound? then Failed(NotFoundText(q.tag)) else Failed(text);
    }

    method UpdateRow(id: int, credential: ClientFields) returns (ok: bool)
      requires id in rows
      modifies this`rows
      ensures rows == if ok then old(rows)[id := old(rows)[id].(credential := Some(credential))] else old(rows)
    {
      ok := *;
      if ok {
        rows := rows[id := rows[id].(credential := Some(credential))];
      }
    }

    /** migrateOne */
    method MigrateOne(id: int) returns (failure: Option<Failure>, ghost k: Calls)
      requires id in rows && SoundToo(agent.Value())
      modifies this`rows, agent
      ensures SoundToo(agent.Value())
      ensures var row := old(rows)[id];
              if failure in {Some(LeaseDenied), Some(Unparsable)} then rows == old(rows) && agent.Value() == old(agent.Value())
              else row.credential.Some?
                   && var m := Migrate(old(agent.Value()), row, row.credential.value, k);
                      && failure == m.failure && agent.Value() == m.agent
                      && rows == old(rows)[id := row.(credential := Some(m.credential))]
    {
      k := Calls(NotDelivered(""), NotDelivered(""), NotDelivered(""), true, NotDelivered(""), NotDelivered(""));
      var row := rows[id];
      var leased: bool := *;
      if !leased {
        return Some(LeaseDenied), k;
      }
      if row.credential.None? {
        return Some(Unparsable), k;
      }
      var former := row.credential.value;
      var renamed := Renamed(former, row);
      assert rows == rows[id := row.(credential := Some(former))];
      var end, c := Forward(RemoveRequest(row, former));
      k := k.(remove := c);
      if end.Failed? {
        if SaysInboundNotFound(end.text) {
          var ok := UpdateRow(id, renamed);
          return if ok then None else Some(OrphanUpdate), k.(updated := ok);
        }
        return Some(RemoveOld), k;
      }
      failure, k := AddRenamed(id, row, former, renamed, k);
    }

    method AddRenamed(id: int, row: Row, former: ClientFields, renamed: ClientFields, ghost seen: Calls)
      returns (failure: Option<Failure>, ghost k: Calls)
      requires id in rows && rows[id] == row && row.credential == Some(former) && renamed == Renamed(former, row)
      requires SoundToo(agent.Value())
      modifies this`rows, agent
      ensures SoundToo(agent.Value()) && k.remove == seen.remove
      ensures failure !in {Some(LeaseDenied), Some(Unparsable)}
      ensures var m := MigrateFrom(old(agent.Value()), row, former, renamed, k);
              && failure == m.failure && agent.Value() == m.agent
              && rows == old(rows)[id := row.(credential := Some(m.credential))]
    {
      k := seen;
      assert rows == rows[id := row.(credential := Some(former))];
      var end, c := Forward(AddRequest(row, renamed));
      k := k.(add := c);
      if end.Failed? {
        var _, back := Forward(AddRequest(row, former));
        return Some(AddNew), k.(rollback := back);
      }
      var ok := UpdateRow(id, renamed);
      k := k.(updated := ok);
      if ok {
        return None, k;
      }
      var withdrawn, w := Forward(RemoveRequest(row, renamed));
      k := k.(removeNew := w);
      if withdrawn.Acked? {
        var _, back := Forward(AddRequest(row, former));
        k := k.(restore := back);
      }
      return Some(Update), k;
    }

    /** One legacy row of a run: moved if that is what is reported, as it was otherwise. */
    method Treat(id: int) returns (ok: bool)
      requires id in rows && SoundToo(agent.Value())
      modifies this`rows, agent
      ensures SoundToo(agent.Value()) && rows.Keys == old(rows).Keys
      ensures forall k :: k in rows && k != id ==> rows[k] == old(rows)[k]
      ensures if ok then Moved(old(rows)[id], rows[id]) else rows[id] == old(rows)[id]
    {
      var failure, k := MigrateOne(id);
      ok := failure.None?;
      if old(rows)[id].credential.Some? {
        OutcomeOfRow(old(agent.Value()), old(rows)[id], old(rows)[id].credential.value, k);
      }
    }

    /** runOnce, over the rows in the order the database lists them. Only legacy rows are touched;
        the run is marked as done only when none is left. */
    method RunOnce(listed: seq<int>, registered: Option<map<string, string>>)
      requires SoundToo(agent.Value()) && (forall k :: 0 <= k < |listed| ==> listed[k] in rows)
      requires forall id :: id in rows ==> id in listed
      requires forall i, j :: 0 <= i < j < |listed| ==> listed[i] != listed[j]
      modifies this`rows, this`done, agent
      ensures old(done) || registered.None? ==> rows == old(rows) && done == old(done) && agent.Value() == old(agent.Value())
      ensures registered.Some? ==> AllTreated(old(rows), rows, registered.value)
      ensures done && !old(done) ==> registered.Some? && NoLegacy(rows, registered.value)
    {
      if done || registered.None? {
        return;
      }
      ghost var before := rows;
      var failed := false;
      for i := 0 to |listed|
        invariant SoundToo(agent.Value()) && done == old(done) && AllTreated(before, rows, registered.value)
        invariant forall k :: 0 <= k < |listed| ==> listed[k] in rows && listed[k] in before
        invariant forall k :: i <= k < |listed| ==> rows[listed[k]] == before[listed[k]]
        invariant !failed ==> forall k :: 0 <= k < i ==> !HasOldEmail(rows[listed[k]], registered.value)
      {
        var id := listed[i];
        VerdictsMean(rows[id], registered.value);
        if Classify(rows[id], registered.value) == Legacy {
          var ok := Treat(id);
          if ok {
            MovedIsNew(before[id], rows[id], registered.value);
            VerdictsMean(rows[id], registered.value);
          } else {
            failed := true;
          }
        }
      }
      if !failed {
        forall id | id in rows ensures !HasOldEmail(rows[id], registered.value) {
          var k :| 0 <= k < |listed| && listed[k] == id;
        }
        done := *;
      }
    }
  }

  /** No row has an old email left. */
  predicate NoLegacy(rows: Rows, registered: map<string, string>) {
    forall id :: id in rows ==> !HasOldEmail(rows[id], registered)
  }

  /** Every row is as it was, or had an old email and has the new one. */
  predicate AllTreated(before: Rows, after: Rows, registered: map<string, string>) {
    after.Keys == before.Keys
    && forall id :: id in before ==>
         after[id] == before[id] || (HasOldEmail(before[id], registered) && Moved(before[id], after[id]))
  }

  /** The row with the new email in its credential, and nothing else changed. */
  predicate Moved(before: Row, after: Row) {
    before.credential.Some?
    && after == before.(credential := Some(before.credential.value["email" := Printed(before.username + "__" + before.tag)]))
  }

  /** A renamed row needs no further migration, whatever users are registered. */
  lemma MovedIsNew(before: Row, after: Row, registered: map<string, string>)
    ensures Moved(before, after) ==> Classify(after, registered) == AlreadyNew
  {
  }
}
