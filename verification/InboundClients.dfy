/** The client list of an inbound (mutateInboundClient in internal/handler/child_manage.go). */
module InboundClients {
  import opened Base

  /** A field of a client object: JSON null, or a value by the text it prints as. */
  datatype Field = Null | Printed(text: string)

  type ClientFields = map<string, Field>

  /** An element of a client list; anything that is not an object is left alone. */
  datatype Element = Client(fields: ClientFields) | NotObject(text: string)

  datatype Setting = NullSetting | NotArray(text: string) | Items(list: seq<Element>)

  type Settings = map<string, Setting>

  /** An inbound definition; `rest` stands for every field the client actions do not look at. */
  datatype Inbound = Inbound(tag: string, protocol: string, settings: Option<Settings>, rest: map<string, string>)

  datatype ClientError = NoSettings | NoIdentity | UnsupportedProtocol | ListNotArray

  // ---------------------------------------------------------------------------------------
  // Protocols and identities
  // ---------------------------------------------------------------------------------------

  function ProtocolName(protocol: string): string {
    Lower(Trim(protocol))
  }

  function PreferredListKey(protocol: string): string {
    var p := ProtocolName(protocol);
    if p in {"vless", "vmess", "trojan", "shadowsocks", "ss", "hysteria", "hysteria2", "hy2"} then "clients"
    else if p in {"anytls", "snell"} then "users"
    else if p in {"socks", "http"} then "accounts"
    else ""
  }

  function ListKey(protocol: string, settings: Settings): (r: Result<string, ClientError>) {
    var preferred := PreferredListKey(protocol);
    if preferred != "" && preferred in settings then Ok(preferred)
    else if "clients" in settings then Ok("clients")
    else if "users" in settings then Ok("users")
    else if "accounts" in settings then Ok("accounts")
    else if preferred == "" then Err(UnsupportedProtocol)
    else Ok(preferred)
  }

  function PrimaryKeyOf(name: string): string {
    if name in {"vless", "vmess"} then "id"
    else if name in {"trojan", "anytls", "shadowsocks", "ss"} then "password"
    else if name == "snell" then "psk"
    else if name in {"hysteria", "hysteria2", "hy2"} then "auth"
    else if name in {"socks", "http"} then "user"
    else ""
  }

  /** The credential field of a protocol; empty when it has none. */
  function PrimaryKey(protocol: string): string {
    PrimaryKeyOf(ProtocolName(protocol))
  }

  function Credential(client: ClientFields, key: string): string {
    if key == "" || key !in client || client[key].Null? then "" else Trim(client[key].text)
  }

  function Primary(client: ClientFields, protocol: string): string {
    Credential(client, PrimaryKey(protocol))
  }

  function Email(client: ClientFields): string {
    Credential(client, "email")
  }

  predicate Usable(client: ClientFields, protocol: string) {
    Primary(client, protocol) != "" || Email(client) != ""
  }

  predicate SameForAdd(e: Element, requested: ClientFields, protocol: string) {
    e.Client?
    && ((Primary(requested, protocol) != "" && Primary(requested, protocol) == Primary(e.fields, protocol))
        || (Email(requested) != "" && Email(requested) == Email(e.fields)))
  }

  predicate SameForRemove(e: Element, requested: ClientFields, protocol: string) {
    e.Client?
    && if Primary(requested, protocol) != "" then Primary(requested, protocol) == Primary(e.fields, protocol)
       else Email(requested) != "" && Email(requested) == Email(e.fields)
  }

  // ---------------------------------------------------------------------------------------
  // Lists
  // ---------------------------------------------------------------------------------------

  predicate Has(list: seq<Element>, requested: ClientFields, protocol: string) {
    exists i :: 0 <= i < |list| && SameForAdd(list[i], requested, protocol)
  }

  function Added(list: seq<Element>, requested: ClientFields, protocol: string): seq<Element> {
    if Has(list, requested, protocol) then list else list + [Client(requested)]
  }

  function Removed(list: seq<Element>, requested: ClientFields, protocol: string): seq<Element> {
    if list == [] then []
    else
      var rest := Removed(list[..|list| - 1], requested, protocol);
      var last := list[|list| - 1];
      if SameForRemove(last, requested, protocol) then rest else rest + [last]
  }

  /** No two clients share a credential, and no two share an email. */
  predicate Unique(list: seq<Element>, protocol: string) {
    forall i, j :: 0 <= i < j < |list| && list[i].Client? && list[j].Client? ==>
      && (Primary(list[i].fields, protocol) != "" ==> Primary(list[i].fields, protocol) != Primary(list[j].fields, protocol))
      && (Email(list[i].fields) != "" ==> Email(list[i].fields) != Email(list[j].fields))
  }

  lemma AddKeepsUnique(list: seq<Element>, requested: ClientFields, protocol: string)
    requires Unique(list, protocol)
    ensures Unique(Added(list, requested, protocol), protocol)
  {
    if !Has(list, requested, protocol) {
      assert forall i :: 0 <= i < |list| ==> !SameForAdd(list[i], requested, protocol);
    }
  }

  lemma AddTwice(list: seq<Element>, requested: ClientFields, protocol: string)
    requires Usable(requested, protocol)
    ensures Added(Added(list, requested, protocol), requested, protocol) == Added(list, requested, protocol)
  {
    var once := Added(list, requested, protocol);
    if !Has(list, requested, protocol) {
      assert SameForAdd(once[|list|], requested, protocol);
    }
  }

  /** The positions a removal keeps. */
  function KeptAt(list: seq<Element>, requested: ClientFields, protocol: string): seq<nat> {
    if list == [] then []
    else
      var rest := KeptAt(list[..|list| - 1], requested, protocol);
      if SameForRemove(list[|list| - 1], requested, protocol) then rest else rest + [|list| - 1]
  }

  lemma {:induction false} KeptInOrder(list: seq<Element>, requested: ClientFields, protocol: string)
    ensures var kept, out := KeptAt(list, requested, protocol), Removed(list, requested, protocol);
            && |out| == |kept|
            && (forall k :: 0 <= k < |kept| ==> kept[k] < |list| && out[k] == list[kept[k]])
            && (forall k, l :: 0 <= k < l < |kept| ==> kept[k] < kept[l])
  {
    if list != [] {
      KeptInOrder(list[..|list| - 1], requested, protocol);
    }
  }

  lemma {:induction false} KeptExactly(list: seq<Element>, requested: ClientFields, protocol: string, i: nat)
    ensures i in KeptAt(list, requested, protocol) <==> i < |list| && !SameForRemove(list[i], requested, protocol)
  {
    if list != [] {
      KeptExactly(list[..|list| - 1], requested, protocol, i);
    }
  }

  /** A removal keeps exactly the elements that do not match, each once and in their order. */
  lemma RemoveKeepsOthers(list: seq<Element>, requested: ClientFields, protocol: string)
    ensures var kept, out := KeptAt(list, requested, protocol), Removed(list, requested, protocol);
            && |out| == |kept|
            && (forall k :: 0 <= k < |kept| ==> kept[k] < |list| && out[k] == list[kept[k]])
            && (forall k, l :: 0 <= k < l < |kept| ==> kept[k] < kept[l])
            && (forall i: nat :: i in kept <==> i < |list| && !SameForRemove(list[i], requested, protocol))
  {
    KeptInOrder(list, requested, protocol);
    forall i: nat
      ensures i in KeptAt(list, requested, protocol) <==> i < |list| && !SameForRemove(list[i], requested, protocol)
    {
      KeptExactly(list, requested, protocol, i);
    }
  }

  lemma RemoveLeavesNoMatch(list: seq<Element>, requested: ClientFields, protocol: string)
    ensures forall e :: e in Removed(list, requested, protocol) <==> e in list && !SameForRemove(e, requested, protocol)
  {
    RemoveKeepsOthers(list, requested, protocol);
    var kept, out := KeptAt(list, requested, protocol), Removed(list, requested, protocol);
    forall e | e in list && !SameForRemove(e, requested, protocol) ensures e in out {
      var i: nat :| i < |list| && list[i] == e;
      var k :| 0 <= k < |kept| && kept[k] == i;
      assert out[k] == e;
    }
    forall e | e in out ensures e in list && !SameForRemove(e, requested, protocol) {
      var k :| 0 <= k < |out| && out[k] == e;
      assert kept[k] in kept;
    }
  }

  lemma {:induction false} RemoveIdentity(list: seq<Element>, requested: ClientFields, protocol: string)
    requires forall e :: e in list ==> !SameForRemove(e, requested, protocol)
    ensures Removed(list, requested, protocol) == list
  {
    if list != [] {
      var front := list[..|list| - 1];
      assert forall e :: e in front ==> e in list;
      RemoveIdentity(front, requested, protocol);
    }
  }

  lemma RemoveTwice(list: seq<Element>, requested: ClientFields, protocol: string)
    ensures Removed(Removed(list, requested, protocol), requested, protocol) == Removed(list, requested, protocol)
  {
    RemoveLeavesNoMatch(list, requested, protocol);
    RemoveIdentity(Removed(list, requested, protocol), requested, protocol);
  }

  lemma RemoveKeepsUnique(list: seq<Element>, requested: ClientFields, protocol: string)
    requires Unique(list, protocol)
    ensures Unique(Removed(list, requested, protocol), protocol)
  {
    RemoveKeepsOthers(list, requested, protocol);
    var kept := KeptAt(list, requested, protocol);
    forall i, j | 0 <= i < j < |kept| ensures kept[i] < kept[j] < |list| {}
  }

  /** Removing a client right after an add that changed the list gives the list back. */
  lemma RemoveUndoesAdd(list: seq<Element>, requested: ClientFields, protocol: string)
    requires Usable(requested, protocol) && !Has(list, requested, protocol)
    ensures Removed(Added(list, requested, protocol), requested, protocol) == list
  {
    var longer := list + [Client(requested)];
    assert longer[..|longer| - 1] == list;
    forall e | e in list ensures !SameForRemove(e, requested, protocol) {
      var i :| 0 <= i < |list| && list[i] == e;
      assert !SameForAdd(list[i], requested, protocol);
    }
    RemoveIdentity(list, requested, protocol);
  }

  /** With unique credentials and emails a removal takes away at most one client. */
  lemma {:induction false} RemoveTakesAtMostOne(list: seq<Element>, requested: ClientFields, protocol: string)
    requires Unique(list, protocol)
    ensures |list| - 1 <= |Removed(list, requested, protocol)| <= |list|
    ensures |Removed(list, requested, protocol)| == |list| <==> forall e :: e in list ==> !SameForRemove(e, requested, protocol)
  {
    if list != [] {
      var front, last := list[..|list| - 1], list[|list| - 1];
      RemoveTakesAtMostOne(front, requested, protocol);
      assert forall e :: e in list <==> e in front || e == last;
      if SameForRemove(last, requested, protocol) {
        forall e | e in front ensures !SameForRemove(e, requested, protocol) {
          var i :| 0 <= i < |front| && front[i] == e;
          assert list[i] == e && list[|list| - 1] == last;
        }
      }
    }
  }

  // ---------------------------------------------------------------------------------------
  // Whole settings
  // ---------------------------------------------------------------------------------------

  function ItemsAt(settings: Settings, key: string): Result<seq<Element>, ClientError> {
    if key !in settings || settings[key].NullSetting? then Ok([])
    else if settings[key].NotArray? then Err(ListNotArray)
    else Ok(settings[key].list)
  }

  /** The client list an action works on, or why there is none. */
  function ClientList(inbound: Inbound, requested: ClientFields): (r: Result<seq<Element>, ClientError>) {
    if inbound.settings.None? then Err(NoSettings)
    else if !Usable(requested, inbound.protocol) then Err(NoIdentity)
    else
      var key := ListKey(inbound.protocol, inbound.settings.value);
      if key.Err? then Err(key.error) else ItemsAt(inbound.settings.value, key.value)
  }

  /** The list of an inbound, whatever the request. */
  function ListOfInbound(inbound: Inbound): Result<seq<Element>, ClientError> {
    if inbound.settings.None? then Err(NoSettings)
    else
      var key := ListKey(inbound.protocol, inbound.settings.value);
      if key.Err? then Err(key.error) else ItemsAt(inbound.settings.value, key.value)
  }

  function Rewritten(list: seq<Element>, requested: ClientFields, protocol: string, add: bool): seq<Element> {
    if add then Added(list, requested, protocol) else Removed(list, requested, protocol)
  }

  /** The inbound with another client list in place of its own. */
  function WithList(inbound: Inbound, list: seq<Element>): Inbound
    requires inbound.settings.Some? && ListKey(inbound.protocol, inbound.settings.value).Ok?
  {
    var key := ListKey(inbound.protocol, inbound.settings.value).value;
    inbound.(settings := Some(inbound.settings.value[key := Items(list)]))
  }

  datatype Mutation = Mutation(inbound: Inbound, changed: bool)

  /** mutateInboundClient: what an action makes of an inbound. */
  function Mutate(inbound: Inbound, requested: ClientFields, add: bool): Result<Mutation, ClientError> {
    var list := ClientList(inbound, requested);
    if list.Err? then Err(list.error)
    else
      var after := Rewritten(list.value, requested, inbound.protocol, add);
      if after == list.value then Ok(Mutation(inbound, false)) else Ok(Mutation(WithList(inbound, after), true))
  }

  /** What an action changes is the one list, and that list is found again afterwards. */
  lemma MutateFrame(inbound: Inbound, requested: ClientFields, add: bool)
    requires Mutate(inbound, requested, add).Ok?
    ensures var m := Mutate(inbound, requested, add).value;
            && m.inbound.tag == inbound.tag && m.inbound.protocol == inbound.protocol && m.inbound.rest == inbound.rest
            && m.inbound.settings.Some?
            && ListKey(inbound.protocol, m.inbound.settings.value) == ListKey(inbound.protocol, inbound.settings.value)
            && (forall k :: k in inbound.settings.value && Ok(k) != ListKey(inbound.protocol, inbound.settings.value) ==>
                  k in m.inbound.settings.value && m.inbound.settings.value[k] == inbound.settings.value[k])
            && (m.changed ==> ClientList(m.inbound, requested)
                              == Ok(Rewritten(ClientList(inbound, requested).value, requested, inbound.protocol, add)))
            && (!m.changed ==> m.inbound == inbound)
  {
  }

  /** Doing an action again changes nothing. */
  lemma MutateTwice(inbound: Inbound, requested: ClientFields, add: bool)
    requires Mutate(inbound, requested, add).Ok?
    ensures var m := Mutate(inbound, requested, add).value;
            Mutate(m.inbound, requested, add) == Ok(Mutation(m.inbound, false))
  {
    MutateFrame(inbound, requested, add);
    var list := ClientList(inbound, requested).value;
    AddTwice(list, requested, inbound.protocol);
    RemoveTwice(list, requested, inbound.protocol);
  }

  /** A removal right after an add that changed the inbound restores the client list; it restores
      the whole inbound exactly when the list was there as an array to begin with. */
  lemma RemoveUndoesAddOnInbound(inbound: Inbound, requested: ClientFields)
    requires Mutate(inbound, requested, true).Ok? && Mutate(inbound, requested, true).value.changed
    ensures var added := Mutate(inbound, requested, true).value.inbound;
            var key := ListKey(inbound.protocol, inbound.settings.value).value;
            && Mutate(added, requested, false).Ok? && Mutate(added, requested, false).value.changed
            && ClientList(Mutate(added, requested, false).value.inbound, requested) == ClientList(inbound, requested)
            && (Mutate(added, requested, false).value.inbound == inbound
                <==> key in inbound.settings.value && inbound.settings.value[key].Items?)
  {
    MutateFrame(inbound, requested, true);
    var added := Mutate(inbound, requested, true).value.inbound;
    var list := ClientList(inbound, requested).value;
    RemoveUndoesAdd(list, requested, inbound.protocol);
    MutateFrame(added, requested, false);
    var key := ListKey(inbound.protocol, inbound.settings.value).value;
    var back := Mutate(added, requested, false).value.inbound;
    assert back.settings.value[key] == Items(list);
    if key in inbound.settings.value && inbound.settings.value[key].Items? {
      assert back.settings.value == inbound.settings.value;
    }
  }

  // ---------------------------------------------------------------------------------------
  // In place
  // ---------------------------------------------------------------------------------------

  class InboundObject {
    const tag: string
    const protocol: string
    const rest: map<string, string>
    var settings: Option<Settings>

    constructor (inbound: Inbound)
      ensures Value() == inbound
    {
      tag, protocol, rest := inbound.tag, inbound.protocol, inbound.rest;
      settings := inbound.settings;
    }

    function Value(): Inbound
      reads this
    {
      Inbound(tag, protocol, settings, rest)
    }

    /** Adds a client unless it is there, or removes every client that matches. */
    method MutateClient(requested: ClientFields, add: bool) returns (r: Result<bool, ClientError>)
      modifies this
      ensures match Mutate(old(Value()), requested, add)
              case Err(e) => r == Err(e) && Value() == old(Value())
              case Ok(m) => r == Ok(m.changed) && Value() == m.inbound
    {
      if settings.None? {
        return Err(NoSettings);
      }
      var primaryKey := PrimaryKey(protocol);
      if Credential(requested, primaryKey) == "" && Credential(requested, "email") == "" {
        return Err(NoIdentity);
      }
      var key := ListKey(protocol, settings.value);
      if key.Err? {
        return Err(key.error);
      }
      var clients := [];
      if key.value in settings.value && !settings.value[key.value].NullSetting? {
        if settings.value[key.value].NotArray? {
          return Err(ListNotArray);
        }
        clients := settings.value[key.value].list;
      }
      var after, changed := clients, false;
      if add {
        after, changed := AddTo(clients, requested, protocol);
      } else {
        after, changed := RemoveFrom(clients, requested, protocol);
      }
      assert ClientList(Value(), requested) == Ok(clients);
      if changed {
        settings := Some(settings.value[key.value := Items(after)]);
      }
      return Ok(changed);
    }
  }

  method AddTo(clients: seq<Element>, requested: ClientFields, protocol: string) returns (after: seq<Element>, changed: bool)
    ensures after == Added(clients, requested, protocol) && (changed <==> after != clients)
  {
    for i := 0 to |clients|
      invariant forall k :: 0 <= k < i ==> !SameForAdd(clients[k], requested, protocol)
    {
      if SameForAdd(clients[i], requested, protocol) {
        return clients, false;
      }
    }
    after, changed := clients + [Client(requested)], true;
    assert |after| > |clients|;
  }

  method RemoveFrom(clients: seq<Element>, requested: ClientFields, protocol: string) returns (filtered: seq<Element>, changed: bool)
    ensures filtered == Removed(clients, requested, protocol) && (changed <==> filtered != clients)
  {
    filtered, changed := [], false;
    for i := 0 to |clients|
      invariant filtered == Removed(clients[..i], requested, protocol)
      invariant |filtered| <= i && (changed <==> |filtered| < i) && (!changed ==> filtered == clients[..i])
    {
      assert clients[..i + 1][..i] == clients[..i];
      if SameForRemove(clients[i], requested, protocol) {
        changed := true;
      } else {
        filtered := filtered + [clients[i]];
      }
    }
    assert clients[..|clients|] == clients;
  }
}
