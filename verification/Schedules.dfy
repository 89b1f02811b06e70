/** Client expiry schedules of the guard: identity, validity and attempt times. */
module Schedules {
  import opened Base

  /** `client` holds the printed value of every field of the client object. */
  datatype Schedule = Schedule(
    key: string,
    tag: string,
    protocol: string,
    client: map<string, string>,
    notAfter: Time,
    attempts: nat,
    nextAttemptAt: Option<Time>)
  {
    /** The instant from which the scheduler may try to remove the client. */
    function AttemptAt(): Time {
      if nextAttemptAt.Some? && nextAttemptAt.value > notAfter then nextAttemptAt.value else notAfter
    }
  }

  const IDENTITY_KEYS: seq<string> := ["email", "id", "password", "user", "psk", "auth"]

  predicate UsableIdentity(client: map<string, string>, field: string) {
    field in client && Trim(client[field]) != "" && Trim(client[field]) != "<nil>"
  }

  function FirstIdentity(client: map<string, string>, fields: seq<string>): (f: Option<string>)
    ensures f.Some? ==> UsableIdentity(client, f.value)
  {
    if fields == [] then None
    else if UsableIdentity(client, fields[0]) then Some(fields[0])
    else FirstIdentity(client, fields[1..])
  }

  /** scheduleKey with its digest taken as injective: the key is the digest's input. */
  function ScheduleKey(tag: string, client: map<string, string>): Option<string> {
    var field := FirstIdentity(client, IDENTITY_KEYS);
    if Trim(tag) == "" || client == map[] || field.None? then None
    else Some(Trim(tag) + "\0" + field.value + "\0" + Trim(client[field.value]))
  }

  /** What reload insists on for one stored schedule. */
  predicate PersistableSchedule(s: Schedule) {
    ScheduleKey(s.tag, s.client) == Some(s.key) && s.notAfter != ZERO_TIME
  }

  /** The record that Upsert stores for a request. */
  function Admitted(s: Schedule, key: string): Schedule {
    Schedule(key, Trim(s.tag), Trim(s.protocol), s.client, s.notAfter, 0, None)
  }

  lemma AdmittedIsPersistable(s: Schedule, key: string)
    requires ScheduleKey(s.tag, s.client) == Some(key) && s.notAfter != ZERO_TIME
    ensures PersistableSchedule(Admitted(s, key))
  {
    TrimIdempotent(s.tag);
  }

  // ---------------------------------------------------------------------------------------
  // Whose deadline it is
  // ---------------------------------------------------------------------------------------

  predicate Names(client: map<string, string>, field: string) {
    field in client && Trim(client[field]) !in {"", "<nil>"}
  }

  /** The field that names a client: its email, or the first of its credentials. */
  function NamingField(client: map<string, string>): Option<string> {
    if Names(client, "email") then Some("email")
    else if Names(client, "id") then Some("id")
    else if Names(client, "password") then Some("password")
    else if Names(client, "user") then Some("user")
    else if Names(client, "psk") then Some("psk")
    else if Names(client, "auth") then Some("auth")
    else None
  }

  lemma FirstIsNaming(client: map<string, string>)
    ensures FirstIdentity(client, IDENTITY_KEYS) == NamingField(client)
  {
    TriesFirst(client, ["email", "id", "password", "user", "psk", "auth"]);
    TriesFirst(client, ["id", "password", "user", "psk", "auth"]);
    TriesFirst(client, ["password", "user", "psk", "auth"]);
    TriesFirst(client, ["user", "psk", "auth"]);
    TriesFirst(client, ["psk", "auth"]);
    TriesFirst(client, ["auth"]);
    assert ["id", "password", "user", "psk", "auth"] == IDENTITY_KEYS[1..];
  }

  lemma TriesFirst(client: map<string, string>, fields: seq<string>)
    requires fields != []
    ensures FirstIdentity(client, fields)
            == if UsableIdentity(client, fields[0]) then Some(fields[0]) else FirstIdentity(client, fields[1..])
  {
  }

  /** A schedule has a key exactly when there is a tag and the client can be named, and two have the
      same key exactly when tag, naming field and name are the same, white space around them aside. */
  lemma KeyIdentifies(tag: string, client: map<string, string>, tag': string, client': map<string, string>)
    requires '\0' !in tag && '\0' !in tag'
    ensures ScheduleKey(tag, client).Some? <==> Trim(tag) != "" && NamingField(client).Some?
    ensures ScheduleKey(tag, client).Some? && ScheduleKey(tag', client').Some? ==>
              (ScheduleKey(tag, client) == ScheduleKey(tag', client') <==>
                 && Trim(tag) == Trim(tag') && NamingField(client) == NamingField(client')
                 && Trim(client[NamingField(client).value]) == Trim(client'[NamingField(client').value]))
  {
    FirstIsNaming(client);
    FirstIsNaming(client');
    TrimKeepsOut(tag, '\0');
    TrimKeepsOut(tag', '\0');
    var f, f' := NamingField(client), NamingField(client');
    if f.Some? && f'.Some? && Trim(tag) != "" && Trim(tag') != "" && ScheduleKey(tag, client) == ScheduleKey(tag', client') {
      var x, x' := Trim(client[f.value]), Trim(client'[f'.value]);
      assert Trim(tag) + "\0" + f.value + "\0" + x == Trim(tag) + ['\0'] + (f.value + ['\0'] + x);
      assert Trim(tag') + "\0" + f'.value + "\0" + x' == Trim(tag') + ['\0'] + (f'.value + ['\0'] + x');
      FirstPart('\0', Trim(tag), f.value + ['\0'] + x, Trim(tag'), f'.value + ['\0'] + x');
      FirstPart('\0', f.value, x, f'.value, x');
    }
  }

  /** What is stored is the request's own deadline for its own client, with no attempt counted. */
  lemma AdmittedMeans(s: Schedule, key: string)
    ensures var r := Admitted(s, key);
            && r.key == key && r.tag == Trim(s.tag) && r.protocol == Trim(s.protocol) && r.client == s.client
            && r.notAfter == s.notAfter && r.attempts == 0 && r.nextAttemptAt == None && r.AttemptAt() == s.notAfter
  {
  }

  /** When a schedule is attempted: not before its deadline, nor before the next attempt that was set. */
  lemma AttemptTime(s: Schedule)
    ensures s.AttemptAt() >= s.notAfter && (s.nextAttemptAt.Some? ==> s.AttemptAt() >= s.nextAttemptAt.value)
    ensures s.AttemptAt() == s.notAfter || Some(s.AttemptAt()) == s.nextAttemptAt
  {
  }

  /** What reload accepts: a schedule with a deadline, under the key of its own client. */
  lemma ReloadAccepts(s: Schedule)
    ensures PersistableSchedule(s) <==>
              && s.notAfter != 0 && Trim(s.tag) != "" && NamingField(s.client).Some?
              && s.key == Trim(s.tag) + "\0" + NamingField(s.client).value + "\0" + Trim(s.client[NamingField(s.client).value])
  {
    FirstIsNaming(s.client);
  }
}
