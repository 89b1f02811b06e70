/** The deadlines along sessions: what is in memory stays well formed, and the sidecar records it. */
module SessionDeadlines {
  import opened Base
  import opened InboundClients
  import opened ClientExpirations
  import opened ManagedClients
  import opened ClientSafety
  import opened ClientSessions

  // ---------------------------------------------------------------------------------------
  // Well-formed deadlines
  // ---------------------------------------------------------------------------------------

  lemma ActUntilIsSound(s: Store, q: ClientRequest, now: Time, o: Outcomes, stage: Stage)
    requires SoundToo(s)
    ensures SoundToo(ActUntil(s, q, now, o, stage))
  {
    var change := Change(s, q, now, o);
    if change.None? {
      ActIsSound(s, q, now, o);
    } else {
      var original := Lookup(s.config, q.tag).value;
      var s1 := AfterAdd(s, change.value, o.apply);
      AddLeavesEntries(s, change.value, o.apply);
      AddLeavesEntries(s1, original, o.rollback);
      SoundSurvives(s, s1);
      SoundSurvives(s, AfterAdd(s1, original, o.rollback));
      var s2 := AfterReplace(s1, change.value);
      SoundSurvives(s, s2);
      UpdateIsSound(s2, q.tag, original.protocol, q.client, Deadline(q, now), o.expiry);
      var x := UpdateExpiration(s2, q.tag, original.protocol, q.client, Deadline(q, now), o.expiry);
      AddLeavesEntries(x.store, original, o.rollback);
      SoundSurvives(x.store, AfterAdd(x.store, original, o.rollback));
    }
  }

  lemma ExpireUntilIsSound(s: Store, e: Expiration, o: Outcomes, stage: Stage)
    requires SoundToo(s)
    ensures SoundToo(ExpireUntil(s, e, o, stage))
  {
    ExpireIsSound(s, e, o);
    var l := LoadedStore(s, o.expiry.readable);
    ExpireUntilCases(s, e, o, stage);
    var until := ExpireUntil(s, e, o, stage);
    if l.Some? && until != Expire(s, e, o).store {
      SoundSurvives(l.value, until);
    }
  }

  lemma RemovalIsSound(s: Store, tag: string, removal: Removal)
    requires SoundToo(s)
    ensures SoundToo(AfterRemoval(s, tag, removal))
  {
    var s1 := if removal.runtime.NotWithdrawn? then s else s.(runtime := s.runtime - {tag});
    var s2 := if removal.persisted then s1.(config := Others(s1.config, tag)) else s1;
    SoundSurvives(s, s1);
    SoundSurvives(s, s2);
    var l := LoadedStore(s2, removal.expiry.readable);
    if l.Some? {
      SavedIsSound(l.value, WithoutTag(l.value.entries, tag), removal.expiry.write);
    }
  }

  lemma EventIsSound(s: Store, event: Event)
    requires SoundToo(s)
    ensures SoundToo(After(s, event))
  {
    match event
    case Acted(q, now, o) => ActIsSound(s, q, now, o);
    case Expired(e, o) => ExpireIsSound(s, e, o);
    case CrashedActing(q, now, o, stage) => ActUntilIsSound(s, q, now, o, stage);
    case CrashedExpiring(e, o, stage) => ExpireUntilIsSound(s, e, o, stage);
    case InboundAdded(inbound, added, persisted) => SoundSurvives(s, AfterAddition(s, inbound, added, persisted));
    case InboundRemoved(tag, removal) => RemovalIsSound(s, tag, removal);
    case AgentRestarted =>
    case XrayRestarted => SoundSurvives(s, After(s, event));
  }

  /** What is in memory, and what a restart would load, stays well formed along every session. */
  lemma {:induction false} SessionsStaySound(ss: seq<Store>, events: seq<Event>, i: nat)
    requires Session(ss, events) && i < |ss|
    ensures SoundToo(ss[i])
  {
    if i > 0 {
      SessionsStaySound(ss, events, i - 1);
      EventIsSound(ss[i - 1], events[i - 1]);
    }
  }

  // ---------------------------------------------------------------------------------------
  // The file and memory
  // ---------------------------------------------------------------------------------------

  /** A sidecar that this program wrote, or none. */
  ghost predicate Ours(f: Option<Sidecar>) {
    f.None? || exists entries :: Good(entries) && f == Some(FileOf(entries))
  }

  /** The sidecar records exactly what memory holds. */
  ghost predicate Tracks(s: Store) {
    && Ours(s.sidecar)
    && (s.loaded ==> Good(s.entries) && (if s.sidecar.None? then s.entries == map[] else s.sidecar == Some(FileOf(s.entries))))
  }

  lemma LoadingTracks(s: Store, readable: bool)
    requires Tracks(s) && LoadedStore(s, readable).Some?
    ensures Tracks(LoadedStore(s, readable).value) && LoadedStore(s, readable).value.loaded
    ensures LoadedStore(s, readable).value.sidecar == s.sidecar
  {
    if !s.loaded && s.sidecar.Some? {
      var entries :| Good(entries) && s.sidecar == Some(FileOf(entries));
      ReloadsIff(FileOf(entries), entries);
    }
  }

  lemma SavedTracks(s: Store, entries: Expirations, o: WriteOutcome)
    requires Tracks(s) && s.loaded && Good(entries) && !o.Unreported?
    ensures Tracks(Saved(s, entries, o))
  {
  }

  lemma UpdateTracks(s: Store, tag: string, protocol: string, client: ClientFields, notAfter: Option<Time>, o: ExpiryOutcome)
    requires Tracks(s) && !o.write.Unreported?
    ensures Tracks(UpdateExpiration(s, tag, protocol, client, notAfter, o).store)
  {
    var l := LoadedStore(s, o.readable);
    if l.Some? {
      LoadingTracks(s, o.readable);
      var next := Set(l.value.entries, tag, protocol, client, notAfter);
      if next.Ok? {
        SetKeepsGood(l.value.entries, tag, protocol, client, notAfter);
        SavedTracks(l.value, next.value, o.write);
      }
    }
  }

  lemma TracksSurvives(s: Store, s': Store)
    requires Tracks(s) && s'.entries == s.entries && s'.sidecar == s.sidecar && s'.loaded == s.loaded
    ensures Tracks(s')
  {
  }

  lemma ActChangedTracks(s: Store, q: ClientRequest, now: Time, original: Inbound, inbound: Inbound, o: Outcomes)
    requires Tracks(s) && !o.expiry.write.Unreported?
    ensures Tracks(ActChanged(s, q, now, original, inbound, o).store)
  {
    var s1 := AfterAdd(s, inbound, o.apply);
    AddLeavesEntries(s, inbound, o.apply);
    AddLeavesEntries(s1, original, o.rollback);
    TracksSurvives(s, AfterAdd(s1, original, o.rollback));
    var s2 := AfterReplace(s1, inbound);
    TracksSurvives(s, s2);
    UpdateTracks(s2, q.tag, original.protocol, q.client, Deadline(q, now), o.expiry);
    var x := UpdateExpiration(s2, q.tag, original.protocol, q.client, Deadline(q, now), o.expiry);
    var s3 := AfterAdd(x.store, original, o.rollback);
    AddLeavesEntries(x.store, original, o.rollback);
    TracksSurvives(x.store, s3);
    TracksSurvives(s3, AfterReplace(s3, original));
  }

  lemma ActTracks(s: Store, q: ClientRequest, now: Time, o: Outcomes)
    requires Tracks(s) && !o.expiry.write.Unreported?
    ensures Tracks(Act(s, q, now, o).store)
  {
    var found := Lookup(s.config, q.tag);
    if found.Some? {
      var m := Mutate(found.value, q.client, Adds(q, now));
      if m.Ok? {
        ActChangedTracks(s, q, now, found.value, m.value.inbound, o);
        UpdateTracks(s, q.tag, found.value.protocol, q.client, Deadline(q, now), o.expiry);
      }
    }
  }

  lemma ExpireChangedTracks(s: Store, e: Expiration, original: Inbound, inbound: Inbound, o: Outcomes)
    requires Tracks(s) && s.loaded && !o.expiry.write.Unreported?
    ensures Tracks(ExpireChanged(s, e, original, inbound, o).store)
  {
    var s1 := AfterAdd(s, inbound, o.apply);
    AddLeavesEntries(s, inbound, o.apply);
    AddLeavesEntries(s1, original, o.rollback);
    TracksSurvives(s, AfterAdd(s1, original, o.rollback));
    TracksSurvives(s, AfterReplace(s1, inbound));
    SavedTracks(AfterReplace(s1, inbound), s.entries - {e.Key()}, o.expiry.write);
  }

  /** The ways in which an attempt goes, once the deadlines are loaded. */
  lemma ExpireCases(s: Store, e: Expiration, o: Outcomes)
    requires s.loaded
    ensures var end, found := Expire(s, e, o), Lookup(s.config, e.tag);
            || end.store == s || end == DropEntry(s, e, o.expiry.write)
            || (found.Some? && Mutate(found.value, e.Client(), false).Ok?
                && end == ExpireChanged(s, e, found.value, Mutate(found.value, e.Client(), false).value.inbound, o))
  {
  }

  lemma LoadedExpireTracks(s: Store, e: Expiration, o: Outcomes)
    requires Tracks(s) && s.loaded && !o.expiry.write.Unreported?
    ensures Tracks(Expire(s, e, o).store)
  {
    ExpireCases(s, e, o);
    var end := Expire(s, e, o);
    SavedTracks(s, s.entries - {e.Key()}, o.expiry.write);
    if end.store != s && end != DropEntry(s, e, o.expiry.write) {
      var found := Lookup(s.config, e.tag).value;
      ExpireChangedTracks(s, e, found, Mutate(found, e.Client(), false).value.inbound, o);
    }
  }

  lemma ExpireTracks(s: Store, e: Expiration, o: Outcomes)
    requires Tracks(s) && !o.expiry.write.Unreported?
    ensures Tracks(Expire(s, e, o).store)
  {
    var l := LoadedStore(s, o.expiry.readable);
    if l.Some? {
      LoadingTracks(s, o.expiry.readable);
      ExpireAfterLoading(s, e, o);
      LoadedExpireTracks(l.value, e, o);
    }
  }

  lemma ActUntilTracks(s: Store, q: ClientRequest, now: Time, o: Outcomes, stage: Stage)
    requires Tracks(s) && !o.expiry.write.Unreported?
    ensures Tracks(ActUntil(s, q, now, o, stage))
  {
    var change := Change(s, q, now, o);
    if change.None? {
      ActTracks(s, q, now, o);
    } else {
      var original := Lookup(s.config, q.tag).value;
      var s1 := AfterAdd(s, change.value, o.apply);
      AddLeavesEntries(s, change.value, o.apply);
      AddLeavesEntries(s1, original, o.rollback);
      TracksSurvives(s, s1);
      TracksSurvives(s, AfterAdd(s1, original, o.rollback));
      var s2 := AfterReplace(s1, change.value);
      TracksSurvives(s, s2);
      UpdateTracks(s2, q.tag, original.protocol, q.client, Deadline(q, now), o.expiry);
      var x := UpdateExpiration(s2, q.tag, original.protocol, q.client, Deadline(q, now), o.expiry);
      AddLeavesEntries(x.store, original, o.rollback);
      TracksSurvives(x.store, AfterAdd(x.store, original, o.rollback));
    }
  }

  lemma ExpireUntilTracks(s: Store, e: Expiration, o: Outcomes, stage: Stage)
    requires Tracks(s) && !o.expiry.write.Unreported?
    ensures Tracks(ExpireUntil(s, e, o, stage))
  {
    ExpireTracks(s, e, o);
    var l := LoadedStore(s, o.expiry.readable);
    ExpireUntilCases(s, e, o, stage);
    var until := ExpireUntil(s, e, o, stage);
    if l.Some? && until != Expire(s, e, o).store {
      LoadingTracks(s, o.expiry.readable);
      TracksSurvives(l.value, until);
    }
  }

  lemma RemovalTracks(s: Store, tag: string, removal: Removal)
    requires Tracks(s) && !removal.expiry.write.Unreported?
    ensures Tracks(AfterRemoval(s, tag, removal))
  {
    var s1 := if removal.runtime.NotWithdrawn? then s else s.(runtime := s.runtime - {tag});
    var s2 := if removal.persisted then s1.(config := Others(s1.config, tag)) else s1;
    TracksSurvives(s, s1);
    TracksSurvives(s, s2);
    var l := LoadedStore(s2, removal.expiry.readable);
    if l.Some? {
      LoadingTracks(s2, removal.expiry.readable);
      SavedTracks(l.value, WithoutTag(l.value.entries, tag), removal.expiry.write);
    }
  }

  lemma ForgottenTracks(s: Store)
    requires Tracks(s)
    ensures Tracks(Forgotten(s))
  {
  }

  /** A sidecar write of the event was renamed and reported as failed. */
  predicate Unannounced(event: Event) {
    match event
    case Acted(_, _, o) => o.expiry.write.Unreported?
    case Expired(_, o) => o.expiry.write.Unreported?
    case CrashedActing(_, _, o, _) => o.expiry.write.Unreported?
    case CrashedExpiring(_, o, _) => o.expiry.write.Unreported?
    case InboundRemoved(_, removal) => removal.expiry.write.Unreported?
    case _ => false
  }

  lemma CrashTracks(s: Store, event: Event)
    requires Tracks(s) && !Unannounced(event) && (event.CrashedActing? || event.CrashedExpiring?)
    ensures Tracks(After(s, event))
  {
    if event.CrashedActing? {
      ActUntilTracks(s, event.q, event.now, event.o, event.stage);
      ForgottenTracks(ActUntil(s, event.q, event.now, event.o, event.stage));
    } else {
      ExpireUntilTracks(s, event.e, event.o, event.stage);
      ForgottenTracks(ExpireUntil(s, event.e, event.o, event.stage));
    }
  }

  lemma EventTracks(s: Store, event: Event)
    requires Tracks(s) && !Unannounced(event)
    ensures Tracks(After(s, event))
  {
    if event.Acted? || event.Expired? {
      RequestTracks(s, event);
    } else if event.CrashedActing? || event.CrashedExpiring? {
      CrashTracks(s, event);
    } else {
      OtherTracks(s, event);
    }
  }

  lemma RequestTracks(s: Store, event: Event)
    requires Tracks(s) && !Unannounced(event) && (event.Acted? || event.Expired?)
    ensures Tracks(After(s, event))
  {
    if event.Acted? {
      ActTracks(s, event.q, event.now, event.o);
    } else {
      ExpireTracks(s, event.e, event.o);
    }
  }

  lemma OtherTracks(s: Store, event: Event)
    requires Tracks(s) && !Unannounced(event)
    requires event.InboundAdded? || event.InboundRemoved? || event.AgentRestarted? || event.XrayRestarted?
    ensures Tracks(After(s, event))
  {
    if event.InboundRemoved? {
      RemovalTracks(s, event.tag, event.removal);
    } else if event.AgentRestarted? {
      ForgottenTracks(s);
    } else if event.InboundAdded? {
      AdditionTracks(s, event.inbound, event.added, event.persisted);
    } else {
      RuntimeTracks(s, Definitions(s.config));
    }
  }

  lemma AdditionTracks(s: Store, inbound: Inbound, added: AddOutcome, persisted: bool)
    requires Tracks(s)
    ensures Tracks(AfterAddition(s, inbound, added, persisted))
  {
    TracksSurvives(s, AfterAddition(s, inbound, added, persisted));
  }

  lemma RuntimeTracks(s: Store, runtime: map<string, Inbound>)
    requires Tracks(s)
    ensures Tracks(s.(runtime := runtime))
  {
  }

  /** Along every session in which no sidecar write was renamed and reported as failed, the file
      records exactly the deadlines in memory, and a restart loads exactly those. */
  lemma {:induction false} SessionsTrack(ss: seq<Store>, events: seq<Event>, i: nat)
    requires Session(ss, events) && i < |ss| && Tracks(ss[0])
    requires forall k :: 0 <= k < i ==> !Unannounced(events[k])
    ensures Tracks(ss[i])
    ensures ss[i].loaded && ss[i].sidecar.Some? ==> Records(ss[i].sidecar.value, ss[i].entries)
    ensures ss[i].loaded && Load(ss[i].sidecar).Ok? ==> Load(ss[i].sidecar) == Ok(ss[i].entries)
  {
    if i > 0 {
      SessionsTrack(ss, events, i - 1);
      EventTracks(ss[i - 1], events[i - 1]);
    }
    if ss[i].loaded && ss[i].sidecar.Some? {
      ReloadsIff(FileOf(ss[i].entries), ss[i].entries);
    }
  }
}
