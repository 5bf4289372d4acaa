/** The in-process bus, and the notification table its subscriber writes. */
module EventBus {
  import opened Outbox
  import opened Wrappers

  type Handler = nat

  function Registered(handlers: map<string, seq<Handler>>, eventType: string): seq<Handler> {
    if eventType in handlers then handlers[eventType] else []
  }

  class InProcessBus {
    var handlers: map<string, seq<Handler>>

    constructor ()
      ensures handlers == map[]
    {
      handlers := map[];
    }

    /** Handlers of the event's own type first, then the catch-all ones. */
    function Matching(eventType: string): seq<Handler>
      reads this
    {
      Registered(handlers, eventType) + Registered(handlers, "*")
    }

    method Subscribe(eventType: string, h: Handler)
      modifies this
      ensures Registered(handlers, eventType) == old(Registered(handlers, eventType)) + [h]
      ensures forall t :: t != eventType ==> Registered(handlers, t) == old(Registered(handlers, t))
    {
      handlers := handlers[eventType := Registered(handlers, eventType) + [h]];
    }

    /** Runs every matching handler, in order and whatever the earlier ones did; fails when any fails. */
    method Publish(eventType: string, succeeds: Handler -> bool) returns (ran: seq<Handler>, errors: seq<Handler>)
      ensures ran == Matching(eventType)
      ensures forall h :: h in errors <==> h in ran && !succeeds(h)
      ensures errors == [] <==> forall i :: 0 <= i < |ran| ==> succeeds(ran[i])
    {
      var hs := Registered(handlers, eventType) + Registered(handlers, "*");
      ran, errors := [], [];
      for i := 0 to |hs|
        invariant ran == hs[..i]
        invariant forall h :: h in errors <==> h in ran && !succeeds(h)
      {
        ran := ran + [hs[i]];
        if !succeeds(hs[i]) {
          errors := errors + [hs[i]];
        }
      }
      if errors == [] {
        forall i | 0 <= i < |ran| ensures succeeds(ran[i]) {
          assert ran[i] in ran;
          assert ran[i] !in errors;
        }
      } else {
        assert errors[0] in errors;
      }
    }
  }

  /** The content is that of the first target of the key's user. */
  predicate FromFirst(ev: Event, k: Key, content: nat) {
    var i := FirstFor(ev.targets, k.user);
    i < |ev.targets| && content == ev.targets[i].content
  }

  class NotificationTable {
    var notes: map<Key, nat>

    constructor ()
      ensures notes == map[]
    {
      notes := map[];
    }

    /** The unique index decides: a second insert for the same key returns the first row. */
    method CreateFromEvent(key: Key, content: nat) returns (stored: nat, created: bool)
      modifies this
      ensures notes == Outbox.CreateFromEvent(old(notes), key, content)
      ensures created <==> key !in old(notes)
      ensures key in notes && stored == notes[key]
      ensures stored == if created then content else old(notes)[key]
    {
      if key in notes {
        return notes[key], false;
      }
      notes := notes[key := content];
      return content, true;
    }

    /** The subscriber: one notification per target, stopping at the first error. */
    method HandleEvent(events: Catalogue, e: EventId, failsAt: Option<nat>) returns (ok: bool, reached: nat)
      modifies this
      ensures reached <= |events(e).targets|
      ensures notes == Handle(events, old(notes), e, reached)
      ensures ok <==> reached == |events(e).targets|
      ensures forall i :: 0 <= i < reached ==> Key(events(e).tenant, e, events(e).targets[i].user) in notes
      ensures forall k :: k in notes ==> k in old(notes) || Targeted(events(e), e, reached, k)
      ensures forall k :: k in old(notes) ==> k in notes && notes[k] == old(notes)[k]
      ensures forall k :: k in notes && k !in old(notes) ==> FromFirst(events(e), k, notes[k])
      ensures ok <==> failsAt.None? || failsAt.value >= |events(e).targets|
      ensures !ok ==> failsAt == Some(reached)
    {
      var targets := events(e).targets;
      reached := 0;
      while reached < |targets|
        invariant reached <= |targets|
        invariant notes == Handle(events, old(notes), e, reached)
        invariant failsAt.Some? ==> reached <= failsAt.value
      {
        if failsAt == Some(reached) {
          HandlesTargets(events, old(notes), e, reached);
          return false, reached;
        }
        var stored, created := CreateFromEvent(KeyOf(events, e, targets[reached]), targets[reached].content);
        reached := reached + 1;
      }
      HandlesTargets(events, old(notes), e, reached);
      ok := true;
    }
  }

  lemma HandlesTargets(events: Catalogue, notes: map<Key, nat>, e: EventId, n: nat)
    requires n <= |events(e).targets|
    ensures var ev, after := events(e), Handle(events, notes, e, n);
      && (forall i :: 0 <= i < n ==> Key(ev.tenant, e, ev.targets[i].user) in after)
      && (forall k :: k in after ==> k in notes || Targeted(ev, e, n, k))
      && (forall k :: k in notes ==> k in after && after[k] == notes[k])
      && (forall k :: k in after && k !in notes ==> FromFirst(ev, k, after[k]))
  {
    var after := Handle(events, notes, e, n);
    forall k: Key
      ensures k in after <==> k in notes || Targeted(events(e), e, n, k)
      ensures k in notes ==> after[k] == notes[k]
      ensures k in after && k !in notes ==> FromFirst(events(e), k, after[k])
    {
      HandleAdds(events, notes, e, n, k);
    }
    forall i | 0 <= i < n ensures Targeted(events(e), e, n, Key(events(e).tenant, e, events(e).targets[i].user)) {
    }
  }
}
