/** What client actions come to, said in the fields of clients and deadlines: which field of which
    protocol names a client, whose deadline is set, and what stays as it was. */
module ClientDeadlines {
  import opened Base
  import opened InboundClients
  import opened ClientExpirations
  import opened ManagedClients
  import opened ClientSafety

  // ---------------------------------------------------------------------------------------
  // Protocols
  // ---------------------------------------------------------------------------------------

  /** The credential field of each protocol; the others have none. */
  function CredentialField(name: string): string {
    match name
    case "vless" => "id"
    case "vmess" => "id"
    case "trojan" => "password"
    case "anytls" => "password"
    case "shadowsocks" => "password"
    case "ss" => "password"
    case "snell" => "psk"
    case "hysteria" => "auth"
    case "hysteria2" => "auth"
    case "hy2" => "auth"
    case "socks" => "user"
    case "http" => "user"
    case _ => ""
  }

  /** Where each protocol keeps its clients. */
  function ListField(name: string): string {
    match name
    case "vless" => "clients"
    case "vmess" => "clients"
    case "trojan" => "clients"
    case "shadowsocks" => "clients"
    case "ss" => "clients"
    case "hysteria" => "clients"
    case "hysteria2" => "clients"
    case "hy2" => "clients"
    case "anytls" => "users"
    case "snell" => "users"
    case "socks" => "accounts"
    case "http" => "accounts"
    case _ => ""
  }

  lemma FieldsOfProtocols(protocol: string)
    ensures PrimaryKey(protocol) == CredentialField(Lower(Trim(protocol)))
    ensures PreferredListKey(protocol) == ListField(Lower(Trim(protocol)))
  {
  }

  /** The list that an action works on: the one of the protocol if it is there, or the first of the
      three that is, or the one of the protocol, which is then new. */
  lemma ListMeans(protocol: string, settings: Settings, field: string)
    ensures ListKey(protocol, settings) == Ok(field) <==>
              var own := ListField(Lower(Trim(protocol)));
              || (own != "" && own in settings && field == own)
              || (!(own != "" && own in settings)
                  && (if "clients" in settings then field == "clients"
                      else if "users" in settings then field == "users"
                      else if "accounts" in settings then field == "accounts"
                      else own != "" && field == own))
    ensures ListKey(protocol, settings).Err? <==>
              ListField(Lower(Trim(protocol))) == "" && settings.Keys !! {"clients", "users", "accounts"}
  {
    FieldsOfProtocols(protocol);
  }

  // ---------------------------------------------------------------------------------------
  // Which client
  // ---------------------------------------------------------------------------------------

  /** The text of a field without white space around it; empty when it is missing or null. */
  function TextOf(client: ClientFields, field: string): string {
    if field in client && client[field].Printed? then Trim(client[field].text) else ""
  }

  /** Two clients have the same text, and some text, in a field. */
  predicate Share(a: ClientFields, b: ClientFields, field: string) {
    TextOf(a, field) != "" && TextOf(a, field) == TextOf(b, field)
  }

  predicate ShareCredential(a: ClientFields, b: ClientFields, protocol: string) {
    var field := CredentialField(Lower(Trim(protocol)));
    field != "" && Share(a, b, field)
  }

  /** An addition finds a client that is there already by its credential or by its email; a removal
      goes by the credential of the request if it has one, and by its email otherwise. */
  lemma MatchesMean(e: Element, requested: ClientFields, protocol: string)
    ensures SameForAdd(e, requested, protocol) <==>
              e.Client? && (ShareCredential(requested, e.fields, protocol) || Share(requested, e.fields, "email"))
    ensures SameForRemove(e, requested, protocol) <==>
              var field := CredentialField(Lower(Trim(protocol)));
              e.Client? && if field != "" && TextOf(requested, field) != "" then Share(requested, e.fields, field)
                           else Share(requested, e.fields, "email")
  {
    FieldsOfProtocols(protocol);
  }

  /** The action lets the client in, unless its deadline has passed. */
  predicate LetsIn(q: ClientRequest, now: Time) {
    q.add && (q.notAfter.None? || now < q.notAfter.value)
  }

  /** After a successful addition the list is as it was, with the client at its end unless one with
      its credential or its email was in it. */
  lemma AdditionMeans(s: Store, q: ClientRequest, now: Time, o: Outcomes)
    requires Synced(s, q.tag) && Act(s, q, now, o).reply.Done? && LetsIn(q, now)
    ensures var before, after := ListIn(s, q), ListIn(Act(s, q, now, o).store, q);
            var protocol := Lookup(s.config, q.tag).value.protocol;
            && before.Some? && after.Some?
            && if exists i :: 0 <= i < |before.value| && before.value[i].Client?
                              && (ShareCredential(q.client, before.value[i].fields, protocol)
                                  || Share(q.client, before.value[i].fields, "email"))
               then after == before
               else after.value == before.value + [Client(q.client)]
  {
    DoneRewritesTheList(s, q, now, o);
    var list, protocol := ListIn(s, q).value, Lookup(s.config, q.tag).value.protocol;
    forall i | 0 <= i < |list|
      ensures SameForAdd(list[i], q.client, protocol) <==>
                list[i].Client? && (ShareCredential(q.client, list[i].fields, protocol) || Share(q.client, list[i].fields, "email"))
    {
      MatchesMean(list[i], q.client, protocol);
    }
  }

  /** After any other successful action no client with the credential of the request is left, or none
      with its email when it has no credential, and every other element is, in its order. */
  lemma RemovalMeans(s: Store, q: ClientRequest, now: Time, o: Outcomes) returns (at: seq<nat>)
    requires Synced(s, q.tag) && Act(s, q, now, o).reply.Done? && !LetsIn(q, now)
    ensures var before, after := ListIn(s, q), ListIn(Act(s, q, now, o).store, q);
            var field := CredentialField(Lower(Trim(Lookup(s.config, q.tag).value.protocol)));
            var naming := if field != "" && TextOf(q.client, field) != "" then field else "email";
            && before.Some? && after.Some? && |after.value| == |at|
            && (forall k :: 0 <= k < |at| ==> at[k] < |before.value| && after.value[k] == before.value[at[k]])
            && (forall k, l :: 0 <= k < l < |at| ==> at[k] < at[l])
            && (forall i: nat :: i in at <==>
                  i < |before.value| && !(before.value[i].Client? && Share(q.client, before.value[i].fields, naming)))
  {
    DoneRewritesTheList(s, q, now, o);
    var list, protocol := ListIn(s, q).value, Lookup(s.config, q.tag).value.protocol;
    RemoveKeepsOthers(list, q.client, protocol);
    at := KeptAt(list, q.client, protocol);
    var field := CredentialField(Lower(Trim(protocol)));
    var naming := if field != "" && TextOf(q.client, field) != "" then field else "email";
    forall i: nat | i < |list|
      ensures SameForRemove(list[i], q.client, protocol) <==> list[i].Client? && Share(q.client, list[i].fields, naming)
    {
      MatchesMean(list[i], q.client, protocol);
    }
  }

  // ---------------------------------------------------------------------------------------
  // Whose deadline
  // ---------------------------------------------------------------------------------------

  /** What a deadline of the client is kept for: its email, or else its credential. */
  predicate NamedBy(client: ClientFields, protocol: string, field: string, value: string) {
    && field != "" && value != "" && value == TextOf(client, field)
    && field == if TextOf(client, "email") != "" then "email" else CredentialField(Lower(Trim(protocol)))
  }

  lemma IdentityMeans(protocol: string, client: ClientFields, field: string, value: string)
    ensures ClientIdentity(protocol, client) == Ok(Identity(field, value)) <==> NamedBy(client, protocol, field, value)
  {
    FieldsOfProtocols(protocol);
  }

  predicate Concerns(e: Expiration, tag: string, field: string, value: string) {
    e.tag == tag && e.identityKey == field && e.identityValue == value
  }

  /** The deadline is one of those that are kept. */
  ghost predicate Kept(entries: Expirations, e: Expiration) {
    exists key :: key in entries && entries[key] == e
  }

  lemma KeyDecides(tag: string, field: string, value: string, tag': string, field': string, value': string)
    requires '\0' !in tag && '\0' !in field && '\0' !in tag' && '\0' !in field'
    requires ExpirationKey(tag, field, value) == ExpirationKey(tag', field', value')
    ensures Trim(tag) == Trim(tag') && field == field' && value == value'
  {
    TrimKeepsOut(tag, '\0');
    TrimKeepsOut(tag', '\0');
    assert ExpirationKey(tag, field, value) == Trim(tag) + ['\0'] + (field + ['\0'] + value);
    assert ExpirationKey(tag', field', value') == Trim(tag') + ['\0'] + (field' + ['\0'] + value');
    FirstPart('\0', Trim(tag), field + ['\0'] + value, Trim(tag'), field' + ['\0'] + value');
    FirstPart('\0', field, value, field', value');
  }

  lemma FieldHasNoNul(protocol: string, field: string)
    requires field == "email" || field == PrimaryKey(protocol)
    ensures '\0' !in field
  {
  }

  /** Setting or clearing a deadline: it is the only one for its inbound and its client, and every
      deadline for another inbound or another client is kept as it is. */
  lemma SetMeans(entries: Expirations, tag: string, protocol: string, client: ClientFields, deadline: Option<Time>,
                 next: Expirations, field: string, value: string)
    requires Good(entries) && Set(entries, tag, protocol, client, deadline) == Ok(next)
    requires NamedBy(client, protocol, field, value) && '\0' !in tag
    ensures forall e: Expiration :: '\0' !in e.tag && !Concerns(e, Trim(tag), field, value) ==>
              (Kept(next, e) <==> Kept(entries, e))
    ensures forall e: Expiration :: Concerns(e, Trim(tag), field, value) ==>
              (Kept(next, e) <==> deadline == Some(e.notAfter) && e.protocol == Lower(Trim(protocol)))
  {
    IdentityMeans(protocol, client, field, value);
    SetKeepsGood(entries, tag, protocol, client, deadline);
    SetSays(entries, tag, protocol, client, deadline);
    forall e: Expiration | '\0' !in e.tag && !Concerns(e, Trim(tag), field, value)
      ensures Kept(next, e) <==> Kept(entries, e)
    {
      OthersHaveOtherKeys(entries, next, e, tag, protocol, client, field, value);
    }
    forall e: Expiration | Concerns(e, Trim(tag), field, value)
      ensures Kept(next, e) <==> deadline == Some(e.notAfter) && e.protocol == Lower(Trim(protocol))
    {
      OwnDeadline(entries, tag, protocol, client, deadline, next, field, value, e);
    }
  }

  lemma OwnDeadline(entries: Expirations, tag: string, protocol: string, client: ClientFields, deadline: Option<Time>,
                    next: Expirations, field: string, value: string, e: Expiration)
    requires Good(next) && Set(entries, tag, protocol, client, deadline) == Ok(next)
    requires ClientIdentity(protocol, client) == Ok(Identity(field, value)) && Concerns(e, Trim(tag), field, value)
    ensures Kept(next, e) <==> deadline == Some(e.notAfter) && e.protocol == Lower(Trim(protocol))
  {
    TrimIdempotent(tag);
    IdentityByName(protocol, client);
    assert e.Key() == ExpirationKey(tag, field, value);
    KeptIsCurrent(next, e);
  }

  lemma KeptIsCurrent(entries: Expirations, e: Expiration)
    requires Good(entries)
    ensures Kept(entries, e) <==> e.Key() in entries && entries[e.Key()] == e
  {
  }

  lemma OthersHaveOtherKeys(entries: Expirations, next: Expirations, e: Expiration, tag: string, protocol: string,
                            client: ClientFields, field: string, value: string)
    requires Good(entries) && Good(next) && ClientIdentity(protocol, client) == Ok(Identity(field, value))
    requires '\0' !in e.tag && '\0' !in tag && !Concerns(e, Trim(tag), field, value)
    requires var key := ExpirationKey(tag, field, value); next - {key} == entries - {key}
    ensures Kept(next, e) <==> Kept(entries, e)
  {
    var key := ExpirationKey(tag, field, value);
    if Kept(next, e) || Kept(entries, e) {
      assert Normal(e);
      FieldHasNoNul(e.protocol, e.identityKey);
      FieldHasNoNul(protocol, field);
      if e.Key() == key {
        KeyDecides(e.tag, e.identityKey, e.identityValue, tag, field, value);
        assert false;
      }
      SameElsewhere(entries, next, key, e.Key());
    }
  }

  lemma SameElsewhere(entries: Expirations, next: Expirations, key: string, other: string)
    requires next - {key} == entries - {key} && other != key
    ensures other in next <==> other in entries
    ensures other in next ==> next[other] == entries[other]
  {
    assert other in next - {key} <==> other in next;
    assert other in entries - {key} <==> other in entries;
    if other in next {
      assert (next - {key})[other] == (entries - {key})[other];
    }
  }

  /** After a successful action every deadline for another inbound or another client is in memory as
      it was, and for its own client there is exactly the deadline asked for, or none. */
  lemma ActionKeepsOthers(s: Store, q: ClientRequest, now: Time, o: Outcomes, field: string, value: string)
    requires Sound(s) && Act(s, q, now, o).reply.Done? && '\0' !in q.tag && Lookup(s.config, q.tag).Some?
    requires NamedBy(q.client, Lookup(s.config, q.tag).value.protocol, field, value)
    ensures LoadedStore(s, o.expiry.readable).Some?
    ensures var before, after := LoadedStore(s, o.expiry.readable).value.entries, Act(s, q, now, o).store.entries;
            && (forall e: Expiration :: '\0' !in e.tag && !Concerns(e, Trim(q.tag), field, value) ==>
                  (Kept(after, e) <==> Kept(before, e)))
            && (forall e: Expiration :: Concerns(e, Trim(q.tag), field, value) ==>
                  (Kept(after, e) <==> LetsIn(q, now) && q.notAfter == Some(e.notAfter)
                                       && e.protocol == Lower(Trim(Lookup(s.config, q.tag).value.protocol))))
  {
    var s2 := DoneUpdates(s, q, now, o);
    var found, l := Lookup(s.config, q.tag).value, LoadedStore(s2, o.expiry.readable);
    UpdateEnds(s2, q.tag, found.protocol, q.client, Deadline(q, now), o.expiry);
    SetMeans(l.value.entries, q.tag, found.protocol, q.client, Deadline(q, now), Act(s, q, now, o).store.entries, field, value);
  }

  /** A successful action has named its client. */
  lemma ActionIdentifies(s: Store, q: ClientRequest, now: Time, o: Outcomes) returns (field: string, value: string)
    requires Act(s, q, now, o).reply.Done?
    ensures Lookup(s.config, q.tag).Some?
    ensures NamedBy(q.client, Lookup(s.config, q.tag).value.protocol, field, value)
  {
    DoneSays(s, q, now, o);
    var protocol := Lookup(s.config, q.tag).value.protocol;
    var id := ClientIdentity(protocol, q.client).value;
    field, value := id.key, id.value;
    IdentityMeans(protocol, q.client, field, value);
  }

  /** A successful expiry drops its own deadline and keeps every other one as it was. */
  lemma ExpiryKeepsOthers(s: Store, e: Expiration, o: Outcomes)
    requires Sound(s) && Expire(s, e, o).ok
    ensures LoadedStore(s, o.expiry.readable).Some?
    ensures var before, after := LoadedStore(s, o.expiry.readable).value.entries, Expire(s, e, o).store.entries;
            forall x: Expiration :: Kept(after, x) <==> Kept(before, x) && x != e
  {
    var l := LoadedStore(s, o.expiry.readable).value;
    var before, after := l.entries, Expire(s, e, o).store.entries;
    if CurrentIn(l, e) {
      ExpiryDrops(s, e, o);
      forall x: Expiration ensures Kept(after, x) <==> Kept(before, x) && x != e {
        DroppedFrom(before, e, x);
      }
    } else {
      KeptIsCurrent(before, e);
    }
  }

  lemma ExpiryDrops(s: Store, e: Expiration, o: Outcomes)
    requires Expire(s, e, o).ok && CurrentIn(LoadedStore(s, o.expiry.readable).value, e)
    requires LoadedStore(s, o.expiry.readable).Some?
    ensures Expire(s, e, o).store.entries == LoadedStore(s, o.expiry.readable).value.entries - {e.Key()}
  {
    var found := Lookup(s.config, e.tag);
    if found.Some? {
      var m := Mutate(found.value, e.Client(), false);
      if m.Ok? && m.value.changed {
        AddSets(LoadedStore(s, o.expiry.readable).value, m.value.inbound, o.apply, e.tag);
      }
    }
  }

  lemma DroppedFrom(entries: Expirations, e: Expiration, x: Expiration)
    requires Good(entries) && e.Key() in entries && entries[e.Key()] == e
    ensures Kept(entries - {e.Key()}, x) <==> Kept(entries, x) && x != e
  {
    if Kept(entries, x) && x != e {
      assert x.Key() in entries - {e.Key()} && (entries - {e.Key()})[x.Key()] == x;
    }
    if Kept(entries - {e.Key()}, x) {
      var key :| key in entries - {e.Key()} && (entries - {e.Key()})[key] == x;
      assert entries[key] == x;
    }
  }

  /** Removing an inbound drops its own deadlines once that is written, and no other. */
  lemma DroppedTagMeans(s: Store, tag: string, o: ExpiryOutcome)
    requires LoadedStore(s, o.readable).Some?
    ensures var before, after := LoadedStore(s, o.readable).value.entries, AfterDropTag(s, tag, o).entries;
            && (o.write.Written? ==> forall e: Expiration :: Kept(after, e) <==> Kept(before, e) && e.tag != tag)
            && (!o.write.Written? ==> after == before)
  {
    var before, after := LoadedStore(s, o.readable).value.entries, AfterDropTag(s, tag, o).entries;
    if o.write.Written? {
      assert after == WithoutTag(before, tag);
      forall e: Expiration ensures Kept(after, e) <==> Kept(before, e) && e.tag != tag {
        if Kept(before, e) && e.tag != tag {
          var key :| key in before && before[key] == e;
          assert key in after && after[key] == e;
        }
        if Kept(after, e) {
          var key :| key in after && after[key] == e;
          assert before[key] == e && before[key].tag != tag;
        }
      }
    }
  }

  /** An entry of the file that reload accepts. */
  predicate Reloads(e: Expiration) {
    var protocol := Lower(Trim(e.protocol));
    && Trim(e.tag) != "" && e.notAfter != 0 && Trim(e.identityValue) != ""
    && CredentialField(protocol) != "" && Trim(e.identityKey) in {"email", CredentialField(protocol)}
  }

  predicate EachLoads(list: seq<Expiration>) {
    forall i :: 0 <= i < |list| ==> Loadable(Normalized(list[i]))
  }

  lemma EachLoadsToTheEnd(list: seq<Expiration>, front: seq<Expiration>, last: Expiration)
    requires list == front + [last]
    ensures EachLoads(list) <==> EachLoads(front) && Loadable(Normalized(last))
  {
    assert list[|front|] == last;
    if EachLoads(list) {
      forall i | 0 <= i < |front| ensures Loadable(Normalized(front[i])) {
        assert list[i] == front[i];
      }
    }
  }

  lemma LoadsOneMore(list: seq<Expiration>)
    requires list != []
    ensures LoadEntries(list).Ok? <==> LoadEntries(list[..|list| - 1]).Ok? && Loadable(Normalized(list[|list| - 1]))
  {
  }

  lemma {:induction false} LoadsWhenEachDoes(list: seq<Expiration>)
    ensures LoadEntries(list).Ok? <==> EachLoads(list)
  {
    if list != [] {
      LoadsOneMore(list);
      LoadsWhenEachDoes(list[..|list| - 1]);
      EachLoadsToTheEnd(list, list[..|list| - 1], list[|list| - 1]);
    }
  }

  /** Reload accepts a list exactly when it accepts every entry of it. */
  lemma ReloadMeans(list: seq<Expiration>)
    ensures LoadEntries(list).Ok? <==> forall i :: 0 <= i < |list| ==> Reloads(list[i])
  {
    LoadsWhenEachDoes(list);
    forall i | 0 <= i < |list| ensures Loadable(Normalized(list[i])) <==> Reloads(list[i]) {
      OneReloads(list[i]);
    }
  }

  /** The entry with the white space around its texts trimmed and its protocol in lower case. */
  predicate Tidied(e: Expiration, raw: Expiration) {
    e == Expiration(Trim(raw.tag), Lower(Trim(raw.protocol)), Trim(raw.identityKey), Trim(raw.identityValue), raw.notAfter)
  }

  /** What is loaded are entries of the list, tidied. */
  lemma {:induction false} LoadedMeans(list: seq<Expiration>, e: Expiration) returns (i: nat)
    requires LoadEntries(list).Ok? && Kept(LoadEntries(list).value, e)
    ensures i < |list| && Tidied(e, list[i])
  {
    var front, last := list[..|list| - 1], list[|list| - 1];
    if e == Normalized(last) {
      i := |list| - 1;
    } else {
      OlderEntry(LoadEntries(front).value, Normalized(last), e);
      i := LoadedMeans(front, e);
    }
  }

  lemma OlderEntry(entries: Expirations, last: Expiration, e: Expiration)
    requires Kept(entries[last.Key() := last], e) && e != last
    ensures Kept(entries, e)
  {
    var key :| key in entries[last.Key() := last] && entries[last.Key() := last][key] == e;
    assert key in entries && entries[key] == e;
  }

  lemma OneReloads(e: Expiration)
    ensures Loadable(Normalized(e)) <==> Reloads(e)
  {
    TrimIdempotent(e.tag);
    TrimIdempotent(e.identityValue);
    LowerTrimStable(e.protocol);
    FieldsOfProtocols(e.protocol);
  }

  /** The separator of the key may occur in a tag: then deadlines of different clients on different
      inbounds share a key, and setting one takes the other away. */
  lemma NulTagsCollide(notAfter: Time)
    requires notAfter != ZERO_TIME
    ensures var a := Expiration("a", "vless", "email", "b\0email\0c", notAfter);
            var client: ClientFields := map["email" := Printed("c")];
            && Normal(a)
            && var next := Set(map[a.Key() := a], "a\0email\0b", "vless", client, Some(notAfter));
               next.Ok? && !Kept(next.value, a)
  {
    var a := Expiration("a", "vless", "email", "b\0email\0c", notAfter);
    var client: ClientFields := map["email" := Printed("c")];
    TrimPlain("a");
    TrimPlain("a\0email\0b");
    TrimPlain("b\0email\0c");
    TrimPlain("c");
    TrimPlain("vless");
    assert ProtocolName("vless") == "vless" by { assert Lower("vless") == "vless"; }
    assert client["email"] == Printed("c") && "email" in client;
    assert a.Key() == "a" + "\0" + "email" + "\0" + "b\0email\0c";
    assert ExpirationKey("a\0email\0b", "email", "c") == "a\0email\0b" + "\0" + "email" + "\0" + "c";
    assert "a" + "\0" + "email" + "\0" + "b\0email\0c" == "a\0email\0b" + "\0" + "email" + "\0" + "c";
    var next := Set(map[a.Key() := a], "a\0email\0b", "vless", client, Some(notAfter));
    assert next.value.Values == {next.value[a.Key()]};
    assert next.value[a.Key()].tag == "a\0email\0b" != "a";
  }
}
